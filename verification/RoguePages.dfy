/**
 The pages of an allocation graph (`src/malloc-graph.c`) and of the allocations that
 escape from it: handing over, replacing shared memory, destroying the graph.
 */
module RoguePages {
  import opened Basics
  import opened VmmPages
  import opened VmmRef

  /** Virtual pages `first .. first + count` of a large allocation. */
  datatype Candidate = Candidate(first: nat, count: nat)

  // ---------------------------------------------------------------- what the graph holds

  function Somes(s: seq<nat>): (r: seq<Option<nat>>)
    ensures |r| == |s| && forall i | 0 <= i < |s| :: r[i] == Some(s[i])
  {
    seq(|s|, i requires 0 <= i < |s| => Some(s[i]))
  }

  /** Live references, each held once. */
  ghost predicate Owned(pages: map<nat, Page>, held: seq<Option<nat>>) {
    && (forall i | 0 <= i < |held| && held[i].Some? :: held[i].value in pages)
    && forall i, j | 0 <= i < j < |held| && held[i].Some? :: held[i] != held[j]
  }

  /** Physical pages: references without a mapping, no two of the same memory. */
  ghost predicate PhysicalOk(pages: map<nat, Page>, physical: seq<nat>) {
    && (forall i | 0 <= i < |physical| :: physical[i] in pages && pages[physical[i]].address == 0)
    && forall i, j | 0 <= i < j < |physical| :: pages[physical[i]].allocation != pages[physical[j]].allocation
  }

  /**
   The virtual page at address `x` maps memory `a`, unless it is a black hole; and
   unless it is one, nobody else maps anything there.
   */
  ghost predicate SlotOk(pages: map<nat, Page>, x: nat, mapping: Option<nat>, a: nat, hole: nat) {
    && (mapping.Some? ==> mapping.value in pages && pages[mapping.value] == Page(a, x))
    && (mapping.None? ==> hole != 0)
    && (hole == 0 ==> forall q | q in pages && pages[q].address == x :: mapping == Some(q))
  }

  /** The memory of each physical page. */
  ghost function Memories(pages: map<nat, Page>, physical: seq<nat>): (mem: seq<nat>)
    requires forall i | 0 <= i < |physical| :: physical[i] in pages
    ensures |mem| == |physical| && forall i | 0 <= i < |physical| :: mem[i] == pages[physical[i]].allocation
  {
    seq(|physical|, i requires 0 <= i < |physical| => pages[physical[i]].allocation)
  }

  ghost predicate Backed(pages: map<nat, Page>, physical: seq<nat>, memories: seq<nat>) {
    PhysicalOk(pages, physical) && Memories(pages, physical) == memories
  }

  ghost predicate SlotsOk(pages: map<nat, Page>, base: nat, mappings: seq<Option<nat>>, vaPhys: seq<nat>,
                          holes: seq<nat>, memories: seq<nat>, lo: nat, hi: nat)
  {
    && |mappings| == |vaPhys| == |holes| >= hi
    && forall v | lo <= v < hi :: vaPhys[v] < |memories|
         && SlotOk(pages, base + v * MG_PAGE, mappings[v], memories[vaPhys[v]], holes[v])
  }

  /** None of `others` can reach the memory of a physical page. */
  ghost predicate Apart(pages: map<nat, Page>, others: set<nat>, physical: seq<nat>) {
    forall q, i | q in others && q in pages && 0 <= i < |physical| && physical[i] in pages ::
      pages[q].allocation != pages[physical[i]].allocation
  }

  ghost predicate KeptIn(pages: map<nat, Page>, pages': map<nat, Page>, some: set<nat>) {
    forall p | p in some && p in pages :: p in pages' && pages'[p] == pages[p]
  }

  predicate Covers(c: Candidate, v: nat) {
    c.first <= v < c.first + c.count
  }

  /** Some candidate lies on physical page `i`. */
  predicate Wanted(candidates: seq<Candidate>, vaPhys: seq<nat>, i: nat) {
    exists k, v | 0 <= k < |candidates| && 0 <= v < |vaPhys| :: Covers(candidates[k], v) && vaPhys[v] == i
  }

  /** The memory of each physical page once the replacements are in. */
  ghost function Replaced(memories: seq<nat>, replacements: seq<Option<nat>>): (mem: seq<nat>)
    requires |memories| == |replacements|
    ensures |mem| == |memories|
  {
    seq(|memories|, i requires 0 <= i < |memories| =>
      if replacements[i].Some? then replacements[i].value else memories[i])
  }

  /** Replacements are new memory, one piece each. */
  ghost predicate NewPages(pages: map<nat, Page>, next: nat, replacements: seq<Option<nat>>) {
    && (forall i | 0 <= i < |replacements| && replacements[i].Some? ::
          replacements[i].value >= next && replacements[i].value in pages
          && pages[replacements[i].value] == Page(replacements[i].value, 0))
    && forall i, j | 0 <= i < j < |replacements| && replacements[i].Some? :: replacements[i] != replacements[j]
  }

  /** Only `gone` was touched, and whatever is new is mapped at `x` or not at all. */
  ghost predicate Moved(pages: map<nat, Page>, pages': map<nat, Page>, gone: Option<nat>, x: nat) {
    && (forall q | q in pages && Some(q) != gone :: q in pages' && pages'[q] == pages[q])
    && forall q | q in pages' && pages'[q].address != 0 && pages'[q].address != x ::
         q in pages && pages[q] == pages'[q]
  }

  lemma {:induction false} MovedTwice(p: map<nat, Page>, p': map<nat, Page>, p'': map<nat, Page>, gone: Option<nat>,
                                      x: nat)
    requires Moved(p, p', gone, x) && Moved(p', p'', None, x)
    ensures Moved(p, p'', gone, x)
  {
  }

  lemma {:induction false} SlotFrame(pages: map<nat, Page>, pages': map<nat, Page>, gone: Option<nat>, y: nat,
                                     x: nat, mapping: Option<nat>, a: nat, hole: nat)
    requires SlotOk(pages, x, mapping, a, hole) && Moved(pages, pages', gone, y)
    requires x != 0 && x != y && (mapping.Some? ==> mapping != gone)
    ensures SlotOk(pages', x, mapping, a, hole)
  {
  }

  /** After the unmapping of `page` alone, nothing is left at its address. */
  lemma {:induction false} UnrefMoved(m: Memory, outside: int, page: nat)
    requires Inv(m, outside) && page in m.pages
    ensures var d := Detached(m, page);
            && Inv(d, outside)
            && Moved(m.pages, d.pages, Some(page), m.pages[page].address)
            && Moved(m.pages, Dropped(d, page).pages, Some(page), m.pages[page].address)
            && page !in Dropped(d, page).pages
            && Dropped(d, page).mapped == d.mapped
  {
    hide Inv;
    DetachedInv(m, outside, page);
    PageCreated(Detached(m, page), outside, page);
  }

  lemma {:induction false} SlotMapped(pages: map<nat, Page>, x: nat, reference: nat, a: nat)
    requires forall q | q in pages :: pages[q].address != x
    ensures SlotOk(pages[reference := Page(a, x)], x, Some(reference), a, 0)
  {
  }

  /** What is held after `Remap`: nothing, the old reference, or a new one. */
  ghost predicate HeldNext(pages: map<nat, Page>, pages': map<nat, Page>, was: Option<nat>, now: Option<nat>) {
    now.Some? ==> now.value in pages' && (now == was || now.value !in pages)
  }

  lemma {:induction false} OwnedMoved(pages: map<nat, Page>, pages': map<nat, Page>, x: nat,
                                      held: seq<Option<nat>>, v: nat, now: Option<nat>)
    requires Owned(pages, held) && v < |held| && held[v].Some?
    requires Moved(pages, pages', held[v], x) && HeldNext(pages, pages', held[v], now)
    ensures Owned(pages', held[v := now])
  {
  }

  /** None of the references in `held` is one of the `others`. */
  ghost predicate Foreign(held: seq<Option<nat>>, others: set<nat>) {
    forall i | 0 <= i < |held| && held[i].Some? :: held[i].value !in others
  }

  lemma {:induction false} ForeignMoved(pages: map<nat, Page>, pages': map<nat, Page>,
                                        held: seq<Option<nat>>, v: nat, now: Option<nat>, x: nat, others: set<nat>)
    requires Foreign(held, others) && v < |held| && held[v].Some? && others <= pages.Keys
    requires Moved(pages, pages', held[v], x) && HeldNext(pages, pages', held[v], now)
    ensures Foreign(held[v := now], others) && KeptIn(pages, pages', others)
  {
  }

  /** Physical pages and their replacements, with the memory they stand for. */
  ghost predicate SourcesOk(pages: map<nat, Page>, physical: seq<nat>, replacements: seq<Option<nat>>,
                            before: seq<nat>, after: seq<nat>)
  {
    && |before| == |after| == |replacements| == |physical|
    && forall i | 0 <= i < |physical| ::
         && physical[i] in pages && pages[physical[i]] == Page(before[i], 0)
         && if replacements[i].None? then after[i] == before[i]
            else replacements[i].value in pages && pages[replacements[i].value] == Page(after[i], 0)
  }

  lemma {:induction false} SourcesSame(pages: map<nat, Page>, physical: seq<nat>, replacements: seq<Option<nat>>,
                                         before: seq<nat>, after: seq<nat>)
    requires SourcesOk(pages, physical, replacements, before, after)
    ensures |before| == |after| == |replacements| == |physical|
    ensures forall i | 0 <= i < |after| && replacements[i] == None :: after[i] == before[i]
  {
  }

  lemma {:induction false} SourcesPlace(pages: map<nat, Page>, physical: seq<nat>, replacements: seq<Option<nat>>,
                                        before: seq<nat>, after: seq<nat>, i: nat)
    requires SourcesOk(pages, physical, replacements, before, after) && i < |replacements| && replacements[i].Some?
    ensures |before| == |after| == |replacements| == |physical|
    ensures replacements[i].value in pages && pages[replacements[i].value] == Page(after[i], 0)
  {
  }

  lemma {:induction false} SourcesFrame(pages: map<nat, Page>, pages': map<nat, Page>, gone: Option<nat>, x: nat,
                                        physical: seq<nat>, replacements: seq<Option<nat>>, before: seq<nat>,
                                        after: seq<nat>)
    requires SourcesOk(pages, physical, replacements, before, after) && Moved(pages, pages', gone, x)
    requires gone.Some? && gone.value in pages && pages[gone.value].address != 0
    ensures SourcesOk(pages', physical, replacements, before, after)
  {
  }

  lemma {:induction false} SlotsFrame(pages: map<nat, Page>, pages': map<nat, Page>, gone: Option<nat>, v: nat,
                                      base: nat, mappings: seq<Option<nat>>, mappings': seq<Option<nat>>,
                                      vaPhys: seq<nat>, holes: seq<nat>, memories: seq<nat>, lo: nat, hi: nat)
    requires base > 0 && SlotsOk(pages, base, mappings, vaPhys, holes, memories, lo, hi)
    requires Moved(pages, pages', gone, base + v * MG_PAGE) && (hi <= v || v < lo)
    requires gone.Some? && gone.value in pages && pages[gone.value].address == base + v * MG_PAGE
    requires |mappings'| == |mappings| && forall w | lo <= w < hi :: mappings'[w] == mappings[w]
    ensures SlotsOk(pages', base, mappings', vaPhys, holes, memories, lo, hi)
  {
    forall w | lo <= w < hi
      ensures SlotOk(pages', base + w * MG_PAGE, mappings'[w], memories[vaPhys[w]], holes[w])
    {
      assert base + w * MG_PAGE != base + v * MG_PAGE;
      SlotFrame(pages, pages', gone, base + v * MG_PAGE, base + w * MG_PAGE, mappings[w], memories[vaPhys[w]],
                holes[w]);
    }
  }

  lemma {:induction false} HeldDistinct(pages: map<nat, Page>, held: seq<Option<nat>>, i: nat, j: nat)
    requires Owned(pages, held) && i < |held| && j < |held| && i != j && held[i].Some?
    ensures held[i] != held[j] && held[i].value in pages
  {
  }

  lemma {:induction false} SlotFacts(pages: map<nat, Page>, x: nat, mapping: Option<nat>, a: nat, hole: nat)
    requires SlotOk(pages, x, mapping, a, hole)
    ensures mapping.Some? ==> mapping.value in pages && pages[mapping.value] == Page(a, x)
  {
  }

  lemma {:induction false} SlotLeft(pages: map<nat, Page>, pages': map<nat, Page>, x: nat, page: nat, a: nat, hole: nat)
    requires SlotOk(pages, x, Some(page), a, hole) && Moved(pages, pages', Some(page), x) && page !in pages' && x != 0
    requires pages'.Keys <= pages.Keys
    ensures hole == 0 ==> forall q | q in pages' :: pages'[q].address != x
    ensures forall b | hole != 0 :: SlotOk(pages', x, None, b, hole)
  {
  }

  lemma {:induction false} Unmapped(m: Memory, outside: int, x: nat)
    requires Inv(m, outside) && forall q | q in m.pages :: m.pages[q].address != x
    ensures x !in m.mapped
  {
  }

  /** Losing a reference that is not a mapping leaves the virtual pages alone. */
  lemma {:induction false} SlotsWithout(pages: map<nat, Page>, pages': map<nat, Page>, page: nat, base: nat,
                                        mappings: seq<Option<nat>>, vaPhys: seq<nat>, holes: seq<nat>,
                                        memories: seq<nat>)
    requires base > 0 && SlotsOk(pages, base, mappings, vaPhys, holes, memories, 0, |vaPhys|)
    requires Moved(pages, pages', Some(page), 0) && page in pages && pages[page].address == 0
    ensures SlotsOk(pages', base, mappings, vaPhys, holes, memories, 0, |vaPhys|)
  {
    forall v | 0 <= v < |vaPhys|
      ensures SlotOk(pages', base + v * MG_PAGE, mappings[v], memories[vaPhys[v]], holes[v])
    {
      SlotFrame(pages, pages', Some(page), 0, base + v * MG_PAGE, mappings[v], memories[vaPhys[v]], holes[v]);
    }
  }

  /** One replacement took its place, and the old reference is gone. */
  lemma {:induction false} SourcesSwap(pages: map<nat, Page>, pages': map<nat, Page>, physical: seq<nat>,
                                       rest: seq<Option<nat>>, now: seq<nat>, after: seq<nat>, i: nat)
    requires SourcesOk(pages, physical, rest, now, after) && i < |physical| && rest[i].Some?
    requires Moved(pages, pages', Some(physical[i]), 0)
    requires forall j | 0 <= j < |physical| && j != i :: physical[j] != physical[i]
    requires forall j | 0 <= j < |physical| :: rest[j] != Some(physical[i])
    ensures SourcesOk(pages', physical[i := rest[i].value], rest[i := None], now[i := after[i]], after)
  {
  }

  /** One held reference takes the place of another, which is gone. */
  lemma {:induction false} OwnedMerge(pages: map<nat, Page>, pages': map<nat, Page>, held: seq<Option<nat>>, i: nat,
                                      j: nat)
    requires Owned(pages, held) && i < |held| && j < |held| && i != j && held[i].Some? && held[j].Some?
    requires Moved(pages, pages', held[i], 0)
    ensures Owned(pages', held[i := held[j]][j := None])
    ensures forall k | 0 <= k < |held| && k != i :: held[k] != held[i]
  {
  }

  lemma {:induction false} OwnedSwap(pages: map<nat, Page>, pages': map<nat, Page>, mappings: seq<Option<nat>>,
                                     physical: seq<nat>, rest: seq<Option<nat>>, i: nat)
    requires |rest| == |physical| && i < |physical| && rest[i].Some?
    requires Owned(pages, mappings + Somes(physical) + rest) && Moved(pages, pages', Some(physical[i]), 0)
    ensures Owned(pages', mappings + Somes(physical[i := rest[i].value]) + rest[i := None])
    ensures forall j | 0 <= j < |physical| && j != i :: physical[j] != physical[i]
    ensures forall j | 0 <= j < |physical| :: rest[j] != Some(physical[i])
  {
    hide Owned, Moved;
    var n := |mappings|;
    var m := n + |physical|;
    var held := mappings + Somes(physical) + rest;
    assert held[n + i] == Some(physical[i]) && held[m + i] == rest[i];
    OwnedMerge(pages, pages', held, n + i, m + i);
    assert mappings + Somes(physical[i := rest[i].value]) + rest[i := None] == held[n + i := rest[i]][m + i := None];
    forall j | 0 <= j < |physical|
      ensures j != i ==> physical[j] != physical[i]
      ensures rest[j] != Some(physical[i])
    {
      assert held[n + j] == Some(physical[j]) && held[m + j] == rest[j];
    }
  }

  lemma {:induction false} SourcesAll(pages: map<nat, Page>, physical: seq<nat>, rest: seq<Option<nat>>,
                                      now: seq<nat>, after: seq<nat>)
    requires SourcesOk(pages, physical, rest, now, after) && forall i | 0 <= i < |rest| :: rest[i] == None
    ensures forall i | 0 <= i < |physical| :: physical[i] in pages && pages[physical[i]] == Page(after[i], 0)
  {
  }

  lemma {:induction false} ForeignPrefix(held: seq<Option<nat>>, rest: seq<Option<nat>>, others: set<nat>)
    requires Foreign(held + rest, others)
    ensures Foreign(held, others)
  {
    assert forall i | 0 <= i < |held| :: (held + rest)[i] == held[i];
  }

  lemma {:induction false} OwnedPrefix(pages: map<nat, Page>, held: seq<Option<nat>>, rest: seq<Option<nat>>)
    requires Owned(pages, held + rest)
    ensures Owned(pages, held)
  {
    assert forall i | 0 <= i < |held| :: (held + rest)[i] == held[i];
  }

  lemma {:induction false} WantedMore(earlier: seq<Candidate>, c: Candidate, vaPhys: seq<nat>, i: nat)
    requires c.first + c.count <= |vaPhys|
    ensures Wanted(earlier + [c], vaPhys, i) <==>
              Wanted(earlier, vaPhys, i) || exists v | c.first <= v < c.first + c.count :: vaPhys[v] == i
  {
    var all := earlier + [c];
    if Wanted(earlier, vaPhys, i) {
      var k, v :| 0 <= k < |earlier| && 0 <= v < |vaPhys| && Covers(earlier[k], v) && vaPhys[v] == i;
      assert Covers(all[k], v);
    }
    if v :| c.first <= v < c.first + c.count && vaPhys[v] == i {
      assert Covers(all[|earlier|], v);
    }
  }

  lemma {:induction false} NoNewPages(pages: map<nat, Page>, next: nat, replacements: seq<Option<nat>>)
    requires forall i | 0 <= i < |replacements| :: replacements[i] == None
    ensures NewPages(pages, next, replacements)
  {
  }

  lemma {:induction false} NewOwned(pages: map<nat, Page>, next: nat, replacements: seq<Option<nat>>)
    requires NewPages(pages, next, replacements)
    ensures Owned(pages, replacements)
    ensures forall i | 0 <= i < |replacements| && replacements[i].Some? :: replacements[i].value >= next
  {
  }

  /** New unmapped pages change nothing for the virtual ones. */
  lemma {:induction false} SlotsNew(pages: map<nat, Page>, pages': map<nat, Page>, base: nat,
                                    mappings: seq<Option<nat>>, vaPhys: seq<nat>, holes: seq<nat>, memories: seq<nat>)
    requires base > 0 && SlotsOk(pages, base, mappings, vaPhys, holes, memories, 0, |vaPhys|)
    requires Moved(pages, pages', None, 0)
    ensures SlotsOk(pages', base, mappings, vaPhys, holes, memories, 0, |vaPhys|)
  {
    forall v | 0 <= v < |vaPhys|
      ensures SlotOk(pages', base + v * MG_PAGE, mappings[v], memories[vaPhys[v]], holes[v])
    {
      SlotFrame(pages, pages', None, 0, base + v * MG_PAGE, mappings[v], memories[vaPhys[v]], holes[v]);
    }
  }

  lemma {:induction false} OwnedNew(pages: map<nat, Page>, pages': map<nat, Page>, next: nat,
                                    held: seq<Option<nat>>, replacements: seq<Option<nat>>, others: set<nat>)
    requires Owned(pages, held) && Moved(pages, pages', None, 0) && NewPages(pages', next, replacements)
    requires forall q | q in pages :: q < next
    requires Foreign(held, others) && others <= pages.Keys
    ensures Owned(pages', held + replacements) && Foreign(held + replacements, others)
  {
  }

  lemma {:induction false} SourcesNew(pages: map<nat, Page>, pages': map<nat, Page>, next: nat,
                                      physical: seq<nat>, replacements: seq<Option<nat>>)
    requires PhysicalOk(pages, physical) && Moved(pages, pages', None, 0) && NewPages(pages', next, replacements)
    requires |replacements| == |physical|
    ensures var before := Memories(pages, physical);
            SourcesOk(pages', physical, replacements, before, Replaced(before, replacements))
  {
  }

  lemma {:induction false} MemoriesDiffer(pages: map<nat, Page>, pages': map<nat, Page>, next: nat,
                                          physical: seq<nat>, replacements: seq<Option<nat>>)
    requires PhysicalOk(pages, physical) && |replacements| == |physical| && NewPages(pages', next, replacements)
    requires forall q | q in pages :: pages[q].allocation < next
    ensures NoDuplicates(Replaced(Memories(pages, physical), replacements))
  {
  }

  /** With its memory replaced, nothing the graph can hand out is memory of an escaped allocation. */
  lemma {:induction false} ApartAfter(pages: map<nat, Page>, pages': map<nat, Page>, next: nat, physical: seq<nat>,
                                      physical': seq<nat>, replacements: seq<Option<nat>>, others: set<nat>)
    requires PhysicalOk(pages, physical) && |replacements| == |physical| == |physical'|
    requires forall i | 0 <= i < |replacements| && replacements[i].Some? :: replacements[i].value >= next
    requires forall q | q in pages :: pages[q].allocation < next
    requires others <= pages.Keys && KeptIn(pages, pages', others)
    requires var after := Replaced(Memories(pages, physical), replacements);
             forall i | 0 <= i < |physical| :: physical'[i] in pages' && pages'[physical'[i]] == Page(after[i], 0)
    requires forall q, i | q in others && 0 <= i < |physical| :: replacements[i].Some? ||
               pages[q].allocation != pages[physical[i]].allocation
    ensures Apart(pages', others, physical')
  {
  }

  /** Memory of physical pages is shared with others only where a candidate lies on it. */
  ghost predicate SharedOnlyBy(pages: map<nat, Page>, others: set<nat>, physical: seq<nat>,
                               candidates: seq<Candidate>, vaPhys: seq<nat>)
  {
    forall q, i | q in others && q in pages && 0 <= i < |physical| && physical[i] in pages
                  && pages[q].allocation == pages[physical[i]].allocation :: Wanted(candidates, vaPhys, i)
  }

  lemma {:induction false} PhysicalNow(pages: map<nat, Page>, physical: seq<nat>, after: seq<nat>)
    requires NoDuplicates(after) && |after| == |physical|
    requires forall i | 0 <= i < |physical| :: physical[i] in pages && pages[physical[i]] == Page(after[i], 0)
    ensures PhysicalOk(pages, physical) && Memories(pages, physical) == after
  {
  }

  lemma {:induction false} SharedFacts(pages: map<nat, Page>, others: set<nat>, physical: seq<nat>,
                                       candidates: seq<Candidate>, vaPhys: seq<nat>)
    requires SharedOnlyBy(pages, others, physical, candidates, vaPhys) && others <= pages.Keys
    requires forall i | 0 <= i < |physical| :: physical[i] in pages
    ensures forall q, i | q in others && 0 <= i < |physical| ::
              Wanted(candidates, vaPhys, i) || pages[q].allocation != pages[physical[i]].allocation
  {
  }

  lemma {:induction false} SlotsIn(pages: map<nat, Page>, base: nat, mappings: seq<Option<nat>>, vaPhys: seq<nat>,
                                   holes: seq<nat>, memories: seq<nat>)
    requires SlotsOk(pages, base, mappings, vaPhys, holes, memories, 0, |vaPhys|)
    ensures |mappings| == |vaPhys| == |holes| && forall v | 0 <= v < |vaPhys| :: vaPhys[v] < |memories|
  {
  }

  lemma {:induction false} PhysicalIn(pages: map<nat, Page>, physical: seq<nat>)
    requires PhysicalOk(pages, physical)
    ensures forall i | 0 <= i < |physical| :: physical[i] in pages
  {
  }

  lemma {:induction false} OwnedKept(pages: map<nat, Page>, pages': map<nat, Page>, held: seq<Option<nat>>)
    requires Owned(pages, held) && forall q | q in pages :: q in pages' && pages'[q] == pages[q]
    ensures Owned(pages', held)
  {
  }

  lemma {:induction false} Bounds(vmm: Vmm)
    requires vmm.Valid()
    ensures forall q | q in vmm.pages :: q < vmm.next && vmm.pages[q].allocation < vmm.next
  {
  }

  /** Give back every reference of a list with gaps. */
  method DropHeld(vmm: Vmm, held: seq<Option<nat>>) returns (clean: bool)
    requires vmm.Valid() && Owned(vmm.pages, held)
    modifies vmm
    ensures vmm.Valid() && vmm.next == old(vmm.next) && (old(vmm.trouble) ==> vmm.trouble)
    ensures forall q | q in old(vmm.pages) && Some(q) !in held :: q in vmm.pages && vmm.pages[q] == old(vmm.pages[q])
    ensures vmm.pages.Keys <= old(vmm.pages.Keys)
    ensures clean ==> forall q | q in vmm.pages :: Some(q) !in held
    ensures !vmm.trouble ==> clean
    ensures vmm.willing ==> clean
  {
    hide Inv;
    clean := true;
    var i := 0;
    while i < |held|
      invariant i <= |held|
      invariant vmm.Valid() && vmm.next == old(vmm.next) && (old(vmm.trouble) ==> vmm.trouble)
      invariant forall q | q in old(vmm.pages) && Some(q) !in held[..i] ::
                  q in vmm.pages && vmm.pages[q] == old(vmm.pages[q])
      invariant vmm.pages.Keys <= old(vmm.pages.Keys)
      invariant clean ==> forall q | q in vmm.pages :: Some(q) !in held[..i]
      invariant (!vmm.trouble ==> clean) && (vmm.willing ==> clean)
    {
      if held[i].Some? {
        assert held[i] !in held[..i];
        var ok := DropOne(vmm, held[i].value);
        clean := clean && ok;
      }
      assert held[..i + 1] == held[..i] + [held[i]];
      i := i + 1;
    }
    assert held[..i] == held;
  }

  /** `physical_page_unref`, seen by the holders of other references. */
  method DropOne(vmm: Vmm, page: nat) returns (ok: bool)
    requires vmm.Valid() && page in vmm.pages
    modifies vmm
    ensures vmm.Valid() && vmm.next == old(vmm.next) && vmm.trouble == (old(vmm.trouble) || !ok)
    ensures forall q | q in old(vmm.pages) && q != page :: q in vmm.pages && vmm.pages[q] == old(vmm.pages[q])
    ensures vmm.pages.Keys <= old(vmm.pages.Keys)
    ensures if ok then page !in vmm.pages else page in vmm.pages
    ensures Moved(old(vmm.pages), vmm.pages, Some(page), old(vmm.pages[page].address))
    ensures vmm.willing ==> ok
  {
    hide Inv, Moved;
    ghost var m := vmm.State();
    UnrefMoved(m, vmm.outside, page);
    PageCreated(Detached(m, page), vmm.outside, page);
    MovedFacts(m.pages, Detached(m, page).pages, Some(page), m.pages[page].address);
    MovedFacts(m.pages, Dropped(Detached(m, page), page).pages, Some(page), m.pages[page].address);
    MovedRefl(m.pages, Some(page), m.pages[page].address);
    ok := vmm.PageUnref(page);
  }

  /** `map_reference`, likewise. */
  method MapOne(vmm: Vmm, x: nat, page: nat) returns (ok: bool, reference: nat)
    requires vmm.Valid() && page in vmm.pages && x != 0
    requires forall q | q in vmm.pages :: vmm.pages[q].address != x
    modifies vmm
    ensures vmm.Valid() && vmm.next >= old(vmm.next)
    ensures Moved(old(vmm.pages), vmm.pages, None, x)
    ensures ok ==> reference !in old(vmm.pages)
                   && vmm.pages == old(vmm.pages)[reference := Page(old(vmm.pages[page].allocation), x)]
    ensures vmm.willing ==> ok
  {
    hide Inv;
    ghost var m := vmm.State();
    Unmapped(m, vmm.outside, x);
    PageCreated(m, vmm.outside, page);
    ok, reference := vmm.MapReference(x, page);
  }

  /** Distinct references, all new. */
  ghost predicate NewReferences(pages: map<nat, Page>, next: nat, references: seq<nat>) {
    && (forall i | 0 <= i < |references| :: references[i] in pages && references[i] >= next)
    && forall i, j | 0 <= i < j < |references| :: references[i] != references[j]
  }

  /** The pages there were, and the references. */
  ghost predicate Added(pages: map<nat, Page>, pages': map<nat, Page>, references: seq<nat>) {
    && (forall q | q in pages :: q in pages' && pages'[q] == pages[q])
    && forall q | q in pages' && q !in pages :: q in references
  }

  /** The references of an escaped allocation, with their addresses. */
  ghost predicate Copies(was: map<nat, Page>, pages: map<nat, Page>, sources: seq<nat>, references: seq<nat>,
                         x: nat, joined: nat)
  {
    && |references| <= |sources|
    && forall j | 0 <= j < |references| :: references[j] in pages && sources[j] in was
         && pages[references[j]] == Page(was[sources[j]].allocation, if j < joined then x + j * MG_PAGE else 0)
  }

  /** What became of an escaped pointer; `Error` also stands for references that could not be given back. */
  datatype Outcome = Error | Freed | Escaped

  method TakeReferences(vmm: Vmm, sources: seq<nat>) returns (ok: bool, references: seq<nat>)
    requires vmm.Valid() && forall i | 0 <= i < |sources| :: sources[i] in vmm.pages
    modifies vmm
    ensures vmm.Valid() && vmm.next >= old(vmm.next)
    ensures forall q | q in old(vmm.pages) :: q in vmm.pages && vmm.pages[q] == old(vmm.pages[q])
    ensures ok ==> |references| == |sources| && NewReferences(vmm.pages, old(vmm.next), references)
                   && Added(old(vmm.pages), vmm.pages, references) && vmm.mapped == old(vmm.mapped)
                   && Copies(old(vmm.pages), vmm.pages, sources, references, 0, 0)
    ensures vmm.willing ==> ok
  {
    hide Inv, Owned;
    ghost var pages := vmm.pages;
    Bounds(vmm);
    references := [];
    var i := 0;
    while i < |sources|
      invariant i == |references| <= |sources|
      invariant vmm.Valid() && vmm.next >= old(vmm.next) && vmm.mapped == old(vmm.mapped)
      invariant NewReferences(vmm.pages, old(vmm.next), references) && Added(pages, vmm.pages, references)
      invariant forall j | 0 <= j < i :: references[j] < vmm.next
      invariant Copies(pages, vmm.pages, sources, references, 0, 0)
    {
      PageCreated(vmm.State(), vmm.outside, sources[i]);
      var reference;
      ok, reference := vmm.PageRef(sources[i]);
      if !ok {
        NewHeld(vmm.pages, old(vmm.next), references);
        var _ := DropHeld(vmm, Somes(references));
        return;
      }
      references := references + [reference];
      i := i + 1;
    }
    ok := true;
  }

  method JoinMappings(vmm: Vmm, sources: seq<nat>, references: seq<nat>, x: nat, ghost was: map<nat, Page>,
                      ghost next: nat)
    requires vmm.Valid() && NewReferences(vmm.pages, next, references) && Added(was, vmm.pages, references)
    requires |references| == |sources| && Copies(was, vmm.pages, sources, references, 0, 0)
    requires forall q | q in was :: q < next
    requires forall i | 0 <= i < |sources| :: sources[i] in was && x + i * MG_PAGE in vmm.mapped
               && vmm.mapped[x + i * MG_PAGE] == was[sources[i]].allocation
    modifies vmm`pages
    ensures vmm.Valid() && NewReferences(vmm.pages, next, references) && Added(was, vmm.pages, references)
    ensures Copies(was, vmm.pages, sources, references, x, |sources|)
  {
    hide Inv, Owned;
    var i := 0;
    while i < |sources|
      invariant i <= |sources|
      invariant vmm.Valid()
      invariant NewReferences(vmm.pages, next, references) && Added(was, vmm.pages, references)
      invariant Copies(was, vmm.pages, sources, references, x, i)
    {
      vmm.Join(references[i], x + i * MG_PAGE);
      i := i + 1;
    }
  }

  /** The address of the page that `ptr` lies on, in a range from `start`. */
  function PageStart(start: nat, ptr: nat): (x: nat)
    requires start <= ptr
    ensures start <= x <= ptr < x + MG_PAGE && (x - start) % MG_PAGE == 0
  {
    ptr - (ptr - start) % MG_PAGE
  }

  /**
   The page work of `handoff_rogue`: one reference per page of the escaped allocation,
   each joining the mapping that is there.  If the pointer was freed in the meantime, or
   a reference could not be had, everything is given back.
   */
  method HandoffRogue(vmm: Vmm, start: nat, ptr: nat, sources: seq<nat>, freed: bool)
    returns (outcome: Outcome, references: seq<nat>)
    requires vmm.Valid() && 0 < start <= ptr
    requires var x := PageStart(start, ptr);
             forall i | 0 <= i < |sources| :: sources[i] in vmm.pages && x + i * MG_PAGE in vmm.mapped
               && vmm.mapped[x + i * MG_PAGE] == vmm.pages[sources[i]].allocation
    modifies vmm
    ensures vmm.Valid() && vmm.next >= old(vmm.next)
    ensures forall q | q in old(vmm.pages) :: q in vmm.pages && vmm.pages[q] == old(vmm.pages[q])
    ensures outcome == Freed ==> freed && vmm.pages == old(vmm.pages)
    ensures outcome == Escaped ==>
              !freed && |references| == |sources| && NewReferences(vmm.pages, old(vmm.next), references)
    ensures outcome == Escaped ==> Added(old(vmm.pages), vmm.pages, references)
    ensures outcome == Escaped ==>
              Copies(old(vmm.pages), vmm.pages, sources, references, PageStart(start, ptr), |sources|)
    ensures vmm.willing ==> outcome == if freed then Freed else Escaped
  {
    hide Inv, Owned, Copies;
    var x := PageStart(start, ptr);
    Bounds(vmm);
    var ok;
    ok, references := TakeReferences(vmm, sources);
    if !ok { return Error, references; }
    JoinMappings(vmm, sources, references, x, old(vmm.pages), old(vmm.next));
    outcome := Escaped;
    if freed {
      NewHeld(vmm.pages, old(vmm.next), references);
      var clean := DropHeld(vmm, Somes(references));
      outcome := if clean then Freed else Error;
    }
  }

  lemma {:induction false} NewAbove(pages: map<nat, Page>, next: nat, references: seq<nat>)
    requires NewReferences(pages, next, references)
    ensures forall r | r in references :: r >= next
  {
  }

  lemma {:induction false} NewHeld(pages: map<nat, Page>, next: nat, references: seq<nat>)
    requires NewReferences(pages, next, references)
    ensures Owned(pages, Somes(references))
  {
  }

  lemma {:induction false} MovedFacts(pages: map<nat, Page>, pages': map<nat, Page>, gone: Option<nat>, x: nat)
    requires Moved(pages, pages', gone, x)
    ensures forall q | q in pages && Some(q) != gone :: q in pages' && pages'[q] == pages[q]
  {
  }

  lemma {:induction false} MovedRefl(pages: map<nat, Page>, gone: Option<nat>, x: nat)
    ensures Moved(pages, pages, gone, x)
  {
  }

  function References(held: seq<Option<nat>>): set<nat> {
    set i | 0 <= i < |held| && held[i].Some? :: held[i].value
  }

  lemma {:induction false} ReferencesOf(held: seq<Option<nat>>, q: nat)
    ensures q in References(held) <==> Some(q) in held
  {
    if Some(q) in held {
      var i :| 0 <= i < |held| && held[i] == Some(q);
      assert held[i].value in References(held);
    }
  }

  lemma {:induction false} OwnedParts(pages: map<nat, Page>, a: seq<Option<nat>>, b: seq<Option<nat>>,
                                      c: seq<Option<nat>>)
    requires Owned(pages, a + b + c)
    ensures Owned(pages, a) && Owned(pages, a + b) && Owned(pages, a + c) && Owned(pages, b + c)
  {
    var n := |a| + |b|;
    var all := a + b + c;
    assert forall i | 0 <= i < |a| :: a[i] == all[i];
    assert forall i | 0 <= i < n :: (a + b)[i] == all[i];
    assert forall i | 0 <= i < |a| + |c| :: (a + c)[i] == all[if i < |a| then i else i + |b|];
    assert forall i | 0 <= i < |b| + |c| :: (b + c)[i] == all[i + |a|];
  }

  /** With the first part given back, the second is still held. */
  lemma {:induction false} OwnedLeft(pages: map<nat, Page>, pages': map<nat, Page>, a: seq<Option<nat>>,
                                     b: seq<Option<nat>>)
    requires Owned(pages, a + b)
    requires forall q | q in pages && Some(q) !in a :: q in pages' && pages'[q] == pages[q]
    ensures Owned(pages', b)
  {
    assert forall j | 0 <= j < |b| :: (a + b)[|a| + j] == b[j];
    forall j | 0 <= j < |b| && b[j].Some?
      ensures b[j] !in a
    {
      assert (a + b)[|a| + j] == b[j];
      assert forall i | 0 <= i < |a| :: (a + b)[i] == a[i];
    }
  }

  lemma {:induction false} SlotsRevived(pages: map<nat, Page>, pages': map<nat, Page>, base: nat,
                                        mappings: seq<Option<nat>>, vaPhys: seq<nat>, holes: seq<nat>,
                                        memories: seq<nat>, v: nat, reference: nat)
    requires base > 0 && SlotsOk(pages, base, mappings, vaPhys, holes, memories, 0, |vaPhys|) && v < |vaPhys|
    requires forall q | q in pages :: pages[q].address != base + v * MG_PAGE
    requires pages' == pages[reference := Page(memories[vaPhys[v]], base + v * MG_PAGE)] && reference !in pages
    ensures SlotsOk(pages', base, mappings[v := Some(reference)], vaPhys, holes[v := 0], memories, 0, |vaPhys|)
  {
    forall w | 0 <= w < |vaPhys|
      ensures SlotOk(pages', base + w * MG_PAGE, mappings[v := Some(reference)][w], memories[vaPhys[w]],
                     holes[v := 0][w])
    {
      if w != v {
        assert SlotOk(pages, base + w * MG_PAGE, mappings[w], memories[vaPhys[w]], holes[w]);
        assert base + w * MG_PAGE != base + v * MG_PAGE;
      }
    }
  }

  lemma {:induction false} PhysicalMoved(pages: map<nat, Page>, pages': map<nat, Page>, x: nat, physical: seq<nat>)
    requires PhysicalOk(pages, physical) && Moved(pages, pages', None, x)
    ensures PhysicalOk(pages', physical) && Memories(pages', physical) == Memories(pages, physical)
  {
  }

  lemma {:induction false} OwnedRevived(pages: map<nat, Page>, pages': map<nat, Page>, x: nat,
                                        held: seq<Option<nat>>, v: nat, reference: nat)
    requires Owned(pages, held) && v < |held| && Moved(pages, pages', None, x)
    requires reference in pages' && reference !in pages
    ensures Owned(pages', held[v := Some(reference)])
  {
  }

  /** The handed-over references stand where the allocation's pages stand, for the same memory. */
  ghost predicate Mirrors(was: map<nat, Page>, pages: map<nat, Page>, physical: seq<nat>, vaPhys: seq<nat>,
                          base: nat, c: Candidate, references: seq<nat>)
  {
    && |references| == c.count && c.first + c.count <= |vaPhys|
    && forall v | c.first <= v < c.first + c.count ::
         && vaPhys[v] < |physical| && physical[vaPhys[v]] in was && references[v - c.first] in pages
         && pages[references[v - c.first]] == Page(was[physical[vaPhys[v]]].allocation, base + v * MG_PAGE)
  }

  ghost predicate Marked(holes: seq<nat>, holes': seq<nat>, c: Candidate, ptr: nat) {
    && |holes'| == |holes|
    && forall v | 0 <= v < |holes| :: holes'[v] == if Covers(c, v) then ptr else holes[v]
  }

  lemma {:induction false} MirrorsCopies(was: map<nat, Page>, pages: map<nat, Page>, physical: seq<nat>,
                                         vaPhys: seq<nat>, base: nat, c: Candidate, sources: seq<nat>,
                                         references: seq<nat>)
    requires c.first + c.count <= |vaPhys| && |sources| == |references| == c.count
    requires forall v | 0 <= v < |vaPhys| :: vaPhys[v] < |physical|
    requires forall i | 0 <= i < c.count :: sources[i] == physical[vaPhys[c.first + i]]
    requires Copies(was, pages, sources, references, base + c.first * MG_PAGE, c.count)
    ensures Mirrors(was, pages, physical, vaPhys, base, c, references)
  {
    forall v | c.first <= v < c.first + c.count
      ensures physical[vaPhys[v]] in was && references[v - c.first] in pages
      ensures pages[references[v - c.first]] == Page(was[physical[vaPhys[v]]].allocation, base + v * MG_PAGE)
    {
      var i := v - c.first;
      assert sources[i] == physical[vaPhys[c.first + i]];
      assert base + c.first * MG_PAGE + i * MG_PAGE == base + v * MG_PAGE;
    }
  }

  /** A page that is not a black hole is mapped to its physical page. */
  lemma {:induction false} OrdinaryMapped(m: Memory, outside: int, base: nat, mappings: seq<Option<nat>>,
                                          vaPhys: seq<nat>, holes: seq<nat>, memories: seq<nat>, v: nat)
    requires Inv(m, outside) && base > 0 && v < |vaPhys|
    requires SlotsOk(m.pages, base, mappings, vaPhys, holes, memories, 0, |vaPhys|) && holes[v] == 0
    ensures base + v * MG_PAGE in m.mapped && m.mapped[base + v * MG_PAGE] == memories[vaPhys[v]]
  {
    hide Inv;
    SlotFacts(m.pages, base + v * MG_PAGE, mappings[v], memories[vaPhys[v]], holes[v]);
    HolderMapped(m, outside, mappings[v].value);
  }

  lemma {:induction false} PhysicalKept(pages: map<nat, Page>, pages': map<nat, Page>, physical: seq<nat>)
    requires PhysicalOk(pages, physical) && forall q | q in pages :: q in pages' && pages'[q] == pages[q]
    ensures PhysicalOk(pages', physical) && Memories(pages', physical) == Memories(pages, physical)
  {
  }

  /** References at the pages of `c` disturb no other virtual page. */
  lemma {:induction false} SlotsHanded(pages: map<nat, Page>, pages': map<nat, Page>, physical: seq<nat>, base: nat,
                                       mappings: seq<Option<nat>>, vaPhys: seq<nat>, holes: seq<nat>, holes': seq<nat>,
                                       memories: seq<nat>, c: Candidate, references: seq<nat>)
    requires base > 0 && SlotsOk(pages, base, mappings, vaPhys, holes, memories, 0, |vaPhys|)
    requires Added(pages, pages', references) && Mirrors(pages, pages', physical, vaPhys, base, c, references)
    requires Marked(holes, holes', c, base + c.first * MG_PAGE)
    ensures SlotsOk(pages', base, mappings, vaPhys, holes', memories, 0, |vaPhys|)
  {
    forall v | 0 <= v < |vaPhys|
      ensures SlotOk(pages', base + v * MG_PAGE, mappings[v], memories[vaPhys[v]], holes'[v])
    {
      assert SlotOk(pages, base + v * MG_PAGE, mappings[v], memories[vaPhys[v]], holes[v]);
      if !Covers(c, v) {
        forall q | q in pages' && q !in pages
          ensures pages'[q].address != base + v * MG_PAGE
        {
          var i :| 0 <= i < |references| && references[i] == q;
          var w := c.first + i;
          assert vaPhys[w] < |physical| && references[w - c.first] == q;
          assert pages'[q].address == base + w * MG_PAGE;
          assert (w - v) * MG_PAGE != 0;
        }
      }
    }
  }

  /** Some reference in `pages` is `page`. */
  ghost predicate Standing(pages: map<nat, Page>, page: Page) {
    exists r :: r in pages && pages[r] == page
  }

  /** Every page of the candidate stands in `pages` for its own memory. */
  ghost predicate Stands(memories: seq<nat>, vaPhys: seq<nat>, base: nat, pages: map<nat, Page>, c: Candidate) {
    forall v: nat | Covers(c, v) ::
      v < |vaPhys| && vaPhys[v] < |memories| && Standing(pages, Page(memories[vaPhys[v]], base + v * MG_PAGE))
  }

  /** `was`, and the new references. */
  function Escapees(pages: map<nat, Page>, ghost next: nat, references: seq<nat>, was: map<nat, Page>,
                    ghost others: set<nat>)
    : (escaped: map<nat, Page>)
    requires NewReferences(pages, next, references) && Kept(was, pages) && others !! was.Keys
    requires forall q | q in others || q in was :: q < next
    ensures escaped.Keys == was.Keys + set r | r in references
    ensures Kept(was, escaped) && Kept(escaped, pages) && others !! escaped.Keys
  {
    map r | r in was.Keys + (set r | r in references) :: pages[r]
  }

  lemma {:induction false} ForeignGrown(pages: map<nat, Page>, held: seq<Option<nat>>, others: set<nat>,
                                        others': set<nat>, next: nat)
    requires Foreign(held, others) && Owned(pages, held) && forall q | q in pages :: q < next
    requires forall q | q in others' && q < next :: q in others
    ensures Foreign(held, others')
  {
  }

  lemma {:induction false} StandsGrown(pages: map<nat, Page>, pages': map<nat, Page>, next: nat, physical: seq<nat>,
                                       vaPhys: seq<nat>, base: nat, c: Candidate, references: seq<nat>,
                                       was: map<nat, Page>, others: set<nat>)
    requires NewReferences(pages', next, references) && Kept(was, pages') && others !! was.Keys
    requires forall q | q in others || q in was :: q < next
    requires PhysicalOk(pages, physical) && Mirrors(pages, pages', physical, vaPhys, base, c, references)
    ensures Stands(Memories(pages, physical), vaPhys, base, Escapees(pages', next, references, was, others), c)
  {
    var escaped := Escapees(pages', next, references, was, others);
    forall v: nat | Covers(c, v)
      ensures v < |vaPhys| && vaPhys[v] < |physical|
              && Standing(escaped, Page(pages[physical[vaPhys[v]]].allocation, base + v * MG_PAGE))
    {
      var r := references[v - c.first];
      assert r in escaped && pages'[r] == Page(pages[physical[vaPhys[v]]].allocation, base + v * MG_PAGE);
    }
  }

  ghost predicate Addressed(pages: map<nat, Page>) {
    forall r | r in pages :: pages[r].address != 0
  }

  lemma {:induction false} AddressedGrown(pages: map<nat, Page>, pages': map<nat, Page>, next: nat, physical: seq<nat>,
                                          vaPhys: seq<nat>, base: nat, c: Candidate, references: seq<nat>,
                                          was: map<nat, Page>, others: set<nat>)
    requires NewReferences(pages', next, references) && Kept(was, pages') && others !! was.Keys
    requires forall q | q in others || q in was :: q < next
    requires Mirrors(pages, pages', physical, vaPhys, base, c, references) && base > 0 && Addressed(was)
    ensures Addressed(Escapees(pages', next, references, was, others))
  {
    forall r | r in references ensures pages'[r].address != 0 {
      var k :| 0 <= k < |references| && references[k] == r;
      var v := c.first + k;
      assert vaPhys[v] < |physical| && references[v - c.first] == r;
    }
  }

  lemma {:induction false} SharedGrown(pages: map<nat, Page>, pages': map<nat, Page>, others: set<nat>,
                                       references: seq<nat>, physical: seq<nat>, vaPhys: seq<nat>, base: nat,
                                       earlier: seq<Candidate>, c: Candidate)
    requires SharedOnlyBy(pages, others, physical, earlier, vaPhys) && PhysicalOk(pages, physical)
    requires others <= pages.Keys && Kept(pages, pages')
    requires Mirrors(pages, pages', physical, vaPhys, base, c, references)
    ensures SharedOnlyBy(pages', others + (set r | r in references), physical, earlier + [c], vaPhys)
  {
    forall q, i | q in others + (set r | r in references) && 0 <= i < |physical| && q in pages'
                  && pages'[q].allocation == pages'[physical[i]].allocation
      ensures Wanted(earlier + [c], vaPhys, i)
    {
      WantedMore(earlier, c, vaPhys, i);
      if q !in others {
        var k :| 0 <= k < |references| && references[k] == q;
        var v := c.first + k;
        assert vaPhys[v] < |physical| && references[v - c.first] == q;
        assert vaPhys[v] == i;
      }
    }
  }

  predicate NoOverlap(c: Candidate, d: Candidate) {
    forall v | c.first <= v < c.first + c.count :: !Covers(d, v)
  }

  /** Candidates are live allocations: no two overlap, and none lies on a black hole. */
  predicate Separate(candidates: seq<Candidate>, vaPhys: seq<nat>, holes: seq<nat>) {
    forall k | 0 <= k < |candidates| :: Fits(candidates, k, vaPhys, holes)
  }

  predicate Fits(candidates: seq<Candidate>, k: nat, vaPhys: seq<nat>, holes: seq<nat>)
    requires k < |candidates|
  {
    && candidates[k].first + candidates[k].count <= |vaPhys| == |holes|
    && (forall v | 0 <= v < |holes| && Covers(candidates[k], v) :: holes[v] == 0)
    && forall j | 0 <= j < k :: NoOverlap(candidates[j], candidates[k])
  }

  lemma {:induction false} SeparateFirst(cs: seq<Candidate>, vaPhys: seq<nat>, holes: seq<nat>)
    requires Separate(cs, vaPhys, holes) && |cs| > 0
    ensures cs[0].first + cs[0].count <= |vaPhys| == |holes|
    ensures forall v | cs[0].first <= v < cs[0].first + cs[0].count :: holes[v] == 0
  {
    assert Fits(cs, 0, vaPhys, holes);
    assert forall v | cs[0].first <= v < cs[0].first + cs[0].count :: Covers(cs[0], v);
  }

  lemma {:induction false} SeparateNext(cs: seq<Candidate>, vaPhys: seq<nat>, holes: seq<nat>, holes': seq<nat>,
                                        ptr: nat)
    requires Separate(cs, vaPhys, holes) && |cs| > 0
    requires holes' == holes || Marked(holes, holes', cs[0], ptr)
    ensures Separate(cs[1..], vaPhys, holes')
  {
    hide Covers, NoOverlap;
    var rest := cs[1..];
    forall k | 0 <= k < |rest|
      ensures Fits(rest, k, vaPhys, holes')
    {
      assert Fits(cs, k + 1, vaPhys, holes);
      forall j | 0 <= j < k
        ensures NoOverlap(rest[j], rest[k])
      {
        assert NoOverlap(cs[j + 1], cs[k + 1]);
      }
      assert NoOverlap(cs[0], cs[k + 1]);
      forall v | 0 <= v < |holes'| && Covers(rest[k], v)
        ensures holes'[v] == 0
      {
        NotBoth(cs[0], cs[k + 1], v);
      }
    }
  }

  lemma {:induction false} NotBoth(c: Candidate, d: Candidate, v: nat)
    requires NoOverlap(c, d) && Covers(d, v)
    ensures !Covers(c, v)
  {
  }

  lemma {:induction false} StandsStill(memories: seq<nat>, vaPhys: seq<nat>, base: nat,
                                       pages: map<nat, Page>, pages': map<nat, Page>, c: Candidate)
    requires Stands(memories, vaPhys, base, pages, c) && Kept(pages, pages')
    ensures Stands(memories, vaPhys, base, pages', c)
  {
    forall v: nat | Covers(c, v)
      ensures Standing(pages', Page(memories[vaPhys[v]], base + v * MG_PAGE))
    {
      var r :| r in pages && pages[r] == Page(memories[vaPhys[v]], base + v * MG_PAGE);
      assert r in pages' && pages'[r] == pages[r];
    }
  }

  lemma {:induction false} SharedNone(pages: map<nat, Page>, others: set<nat>, physical: seq<nat>, vaPhys: seq<nat>)
    requires Apart(pages, others, physical)
    ensures SharedOnlyBy(pages, others, physical, [], vaPhys)
  {
  }

  /** The candidates whose pointers were not freed before their handoff. */
  function Escaping(cs: seq<Candidate>, freed: seq<bool>): (r: seq<Candidate>)
    requires |freed| == |cs|
  {
    if cs == [] then []
    else Escaping(cs[..|cs| - 1], freed[..|cs| - 1]) + (if freed[|cs| - 1] then [] else [cs[|cs| - 1]])
  }

  lemma {:induction false} EscapingNone(cs: seq<Candidate>, freed: seq<bool>)
    requires |freed| == |cs|
    ensures Escaping(cs[..0], freed[..0]) == []
  {
  }

  lemma {:induction false} EscapingMore(cs: seq<Candidate>, freed: seq<bool>, k: nat)
    requires k < |cs| == |freed|
    ensures Escaping(cs[..k + 1], freed[..k + 1]) ==
              Escaping(cs[..k], freed[..k]) + (if freed[k] then [] else [cs[k]])
  {
    assert cs[..k + 1][..k] == cs[..k] && freed[..k + 1][..k] == freed[..k];
  }

  lemma {:induction false} EscapingIn(cs: seq<Candidate>, freed: seq<bool>)
    requires |freed| == |cs|
    ensures forall c | c in Escaping(cs, freed) :: c in cs
    decreases |cs|
  {
    if cs != [] { EscapingIn(cs[..|cs| - 1], freed[..|cs| - 1]); }
  }

  ghost predicate Within(cs: seq<Candidate>, v: nat) {
    exists c :: c in cs && Covers(c, v)
  }

  /** The pages of `cs` have become black holes, and no others. */
  ghost predicate HolesAre(was: seq<nat>, holes: seq<nat>, cs: seq<Candidate>) {
    |holes| == |was| && forall v: nat | v < |was| :: holes[v] == 0 <==> was[v] == 0 && !Within(cs, v)
  }

  lemma {:induction false} HolesSame(holes: seq<nat>)
    ensures HolesAre(holes, holes, [])
  {
  }

  lemma {:induction false} HolesMore(was: seq<nat>, before: seq<nat>, after: seq<nat>, cs: seq<Candidate>, c: Candidate,
                                     ptr: nat)
    requires HolesAre(was, before, cs) && Marked(before, after, c, ptr) && ptr > 0
    ensures HolesAre(was, after, cs + [c])
  {
    forall v: nat | v < |was|
      ensures after[v] == 0 <==> was[v] == 0 && !Within(cs + [c], v)
    {
      assert Within(cs + [c], v) <==> Within(cs, v) || Covers(c, v) by {
        if Covers(c, v) { assert c in cs + [c]; }
        if Within(cs, v) {
          var d :| d in cs && Covers(d, v);
          assert d in cs + [c];
        }
      }
    }
  }

  lemma {:induction false} NoneAddressed()
    ensures Addressed(map[])
  {
  }

  lemma {:induction false} SeparateRange(cs: seq<Candidate>, cs': seq<Candidate>, vaPhys: seq<nat>, holes: seq<nat>)
    requires Separate(cs', vaPhys, holes) && forall c | c in cs :: c in cs'
    ensures forall k | 0 <= k < |cs| :: cs[k].first + cs[k].count <= |vaPhys|
  {
    forall k | 0 <= k < |cs|
      ensures cs[k].first + cs[k].count <= |vaPhys|
    {
      assert cs[k] in cs';
      var j :| 0 <= j < |cs'| && cs'[j] == cs[k];
      assert Fits(cs', j, vaPhys, holes);
    }
  }

  /** The references of the small heap are held as well, and none of them escaped. */
  lemma {:induction false} SmallHeld(pages: map<nat, Page>, pages': map<nat, Page>, held: seq<Option<nat>>,
                                     small: seq<nat>, others: set<nat>, escaped: map<nat, Page>)
    requires Owned(pages', held) && Foreign(held, others + escaped.Keys) && KeptIn(pages, pages', others)
    requires NoDuplicates(small) && others <= pages.Keys && escaped.Keys !! others && Kept(escaped, pages')
    requires forall q | q in small :: q in others
    ensures Owned(pages', held + Somes(small)) && Foreign(held + Somes(small), escaped.Keys)
    ensures References(held + Somes(small)) + escaped.Keys <= pages'.Keys
  {
    var all := held + Somes(small);
    forall i | 0 <= i < |all| && all[i].Some?
      ensures all[i].value in pages' && all[i].value !in escaped
    {
      if i >= |held| { assert all[i] == Some(small[i - |held|]) && small[i - |held|] in small; }
    }
    forall i, j | 0 <= i < j < |all| && all[i].Some?
      ensures all[i] != all[j]
    {
      if j >= |held| {
        assert all[j] == Some(small[j - |held|]) && small[j - |held|] in others;
        if i >= |held| { assert all[i] == Some(small[i - |held|]); }
        else { assert held[i].value !in others + escaped.Keys; }
      }
    }
  }

  lemma {:induction false} OwnedStill(pages: map<nat, Page>, pages': map<nat, Page>, held: seq<Option<nat>>,
                                      kept: set<nat>)
    requires Owned(pages, held) && KeptIn(pages, pages', kept) && References(held) <= kept
    ensures Owned(pages', held)
  {
    forall i | 0 <= i < |held| && held[i].Some?
      ensures held[i].value in pages'
    {
      assert held[i].value in References(held);
    }
  }

  lemma {:induction false} AllMapped(m: Memory, outside: int, escaped: map<nat, Page>)
    requires Inv(m, outside) && Kept(escaped, m.pages) && Addressed(escaped)
    ensures forall r | r in escaped ::
              escaped[r].address in m.mapped && m.mapped[escaped[r].address] == escaped[r].allocation
  {
    hide Inv;
    forall r | r in escaped
      ensures escaped[r].address in m.mapped && m.mapped[escaped[r].address] == escaped[r].allocation
    {
      HolderMapped(m, outside, r);
    }
  }

  lemma {:induction false} HeldKept(pages: map<nat, Page>, pages': map<nat, Page>, held: seq<Option<nat>>)
    requires Owned(pages, held) && Kept(pages, pages')
    ensures Owned(pages', held)
  {
  }

  /** No reference stands at or behind virtual page `n` of the range reserved from `base`. */
  predicate Room(pages: map<nat, Page>, base: nat, n: nat) {
    forall q | q in pages ::
      pages[q].address == 0 || pages[q].address < base + n * MG_PAGE || base + MG_PAGES * MG_PAGE <= pages[q].address
  }

  lemma {:induction false} RoomFree(pages: map<nat, Page>, base: nat, n: nat)
    requires Room(pages, base, n) && n < MG_PAGES && base > 0
    ensures forall q | q in pages :: pages[q].address != base + n * MG_PAGE
  {
  }

  lemma {:induction false} RoomMoved(pages: map<nat, Page>, pages': map<nat, Page>, base: nat, n: nat, x: nat)
    requires Room(pages, base, n) && Moved(pages, pages', None, x) && x == 0
    ensures Room(pages', base, n)
  {
  }

  lemma {:induction false} RoomAfter(pages: map<nat, Page>, pages': map<nat, Page>, base: nat, n: nat)
    requires Room(pages, base, n) && Moved(pages, pages', None, base + n * MG_PAGE)
    ensures Room(pages', base, n + 1)
  {
  }

  /** A further physical page, of new memory. */
  lemma {:induction false} PhysicalAdded(pages: map<nat, Page>, pages': map<nat, Page>, physical: seq<nat>, page: nat,
                                         others: set<nat>)
    requires PhysicalOk(pages, physical) && Apart(pages, others, physical) && others <= pages.Keys
    requires pages' == pages[page := Page(page, 0)]
    requires forall q | q in pages :: q < page && pages[q].allocation < page
    ensures PhysicalOk(pages', physical + [page]) && Apart(pages', others, physical + [page])
    ensures forall i | 0 <= i < |physical| :: Memories(pages', physical + [page])[i] == Memories(pages, physical)[i]
  {
  }

  lemma {:induction false} HeldAdded(pages: map<nat, Page>, pages': map<nat, Page>, held: seq<Option<nat>>, page: nat,
                                     others: set<nat>)
    requires Owned(pages, held) && Foreign(held, others) && others <= pages.Keys
    requires page !in pages && page in pages' && Kept(pages, pages')
    ensures Owned(pages', held + [Some(page)]) && Foreign(held + [Some(page)], others)
  {
  }

  lemma {:induction false} HeldInserted(pages: map<nat, Page>, pages': map<nat, Page>, a: seq<Option<nat>>,
                                        b: seq<Option<nat>>, reference: nat, others: set<nat>)
    requires Owned(pages, a + b) && Foreign(a + b, others) && others <= pages.Keys
    requires reference !in pages && reference in pages' && Kept(pages, pages')
    ensures Owned(pages', a + [Some(reference)] + b) && Foreign(a + [Some(reference)] + b, others)
  {
    var held, n := a + [Some(reference)] + b, |a|;
    assert forall i | 0 <= i < |held| :: held[i] == if i == n then Some(reference)
                                                    else (a + b)[if i < n then i else i - 1];
  }

  /** Virtual pages do not mind further physical ones. */
  lemma {:induction false} SlotsMore(pages: map<nat, Page>, base: nat, mappings: seq<Option<nat>>, vaPhys: seq<nat>,
                                     holes: seq<nat>, memories: seq<nat>, memories': seq<nat>)
    requires SlotsOk(pages, base, mappings, vaPhys, holes, memories, 0, |vaPhys|)
    requires |memories| <= |memories'| && forall i | 0 <= i < |memories| :: memories'[i] == memories[i]
    ensures SlotsOk(pages, base, mappings, vaPhys, holes, memories', 0, |vaPhys|)
  {
    hide SlotOk;
  }

  lemma {:induction false} SlotsBelow(pages: map<nat, Page>, pages': map<nat, Page>, base: nat,
                                      mappings: seq<Option<nat>>, vaPhys: seq<nat>, holes: seq<nat>, memories: seq<nat>)
    requires base > 0 && SlotsOk(pages, base, mappings, vaPhys, holes, memories, 0, |vaPhys|)
    requires Moved(pages, pages', None, base + |vaPhys| * MG_PAGE)
    ensures SlotsOk(pages', base, mappings, vaPhys, holes, memories, 0, |vaPhys|)
  {
    hide SlotOk, Moved;
    forall v | 0 <= v < |vaPhys|
      ensures SlotOk(pages', base + v * MG_PAGE, mappings[v], memories[vaPhys[v]], holes[v])
    {
      SlotFrame(pages, pages', None, base + |vaPhys| * MG_PAGE, base + v * MG_PAGE, mappings[v], memories[vaPhys[v]],
                holes[v]);
    }
  }

  lemma {:induction false} SlotsAppended(pages: map<nat, Page>, pages': map<nat, Page>, base: nat,
                                         mappings: seq<Option<nat>>, vaPhys: seq<nat>, holes: seq<nat>,
                                         memories: seq<nat>, phys: nat, reference: nat)
    requires base > 0 && SlotsOk(pages', base, mappings, vaPhys, holes, memories, 0, |vaPhys|) &&
             |mappings| == |vaPhys| == |holes|
    requires phys < |memories| && forall q | q in pages :: pages[q].address != base + |vaPhys| * MG_PAGE
    requires pages' == pages[reference := Page(memories[phys], base + |vaPhys| * MG_PAGE)]
    ensures SlotsOk(pages', base, mappings + [Some(reference)], vaPhys + [phys], holes + [0], memories, 0, |vaPhys| + 1)
  {
    hide SlotOk;
    SlotMapped(pages, base + |vaPhys| * MG_PAGE, reference, memories[phys]);
  }

  lemma {:induction false} ApartMoved(pages: map<nat, Page>, pages': map<nat, Page>, x: nat, physical: seq<nat>,
                                      others: set<nat>)
    requires Apart(pages, others, physical) && others <= pages.Keys && Moved(pages, pages', None, x)
    requires forall i | 0 <= i < |physical| :: physical[i] in pages
    ensures Apart(pages', others, physical) && others <= pages'.Keys && Kept(pages, pages')
  {
  }

  /** What others do leaves the graph's pages as they are. */
  lemma {:induction false} OthersLeaveValid(pages: map<nat, Page>, pages': map<nat, Page>, base: nat,
                                            mappings: seq<Option<nat>>, vaPhys: seq<nat>, holes: seq<nat>,
                                            physical: seq<nat>, others: set<nat>, kept: set<nat>)
    requires base > 0 && Owned(pages, mappings + Somes(physical)) && PhysicalOk(pages, physical)
    requires SlotsOk(pages, base, mappings, vaPhys, holes, Memories(pages, physical), 0, |vaPhys|)
    requires Apart(pages, others, physical) && others <= kept <= pages.Keys &&
             References(mappings + Somes(physical)) <= kept
    requires KeptIn(pages, pages', kept) && NoIntruders(pages, pages', kept)
    ensures Owned(pages', mappings + Somes(physical)) && PhysicalOk(pages', physical)
    ensures SlotsOk(pages', base, mappings, vaPhys, holes, Memories(pages', physical), 0, |vaPhys|)
    ensures Apart(pages', others, physical) && KeptIn(pages, pages', others) && others <= pages'.Keys
  {
    hide Owned, SlotOk;
    OwnedStill(pages, pages', mappings + Somes(physical), kept);
    forall i | 0 <= i < |physical|
      ensures physical[i] in kept
    {
      assert (mappings + Somes(physical))[|mappings| + i] == Some(physical[i]);
      assert physical[i] in References(mappings + Somes(physical));
    }
    assert Memories(pages', physical) == Memories(pages, physical);
    forall v | 0 <= v < |vaPhys|
      ensures SlotOk(pages', base + v * MG_PAGE, mappings[v], Memories(pages, physical)[vaPhys[v]], holes[v])
    {
      if mappings[v].Some? {
        assert (mappings + Somes(physical))[v] == mappings[v];
        assert mappings[v].value in References(mappings + Somes(physical));
      }
      SlotUnintruded(pages, pages', base + v * MG_PAGE, mappings[v], Memories(pages, physical)[vaPhys[v]], holes[v],
                     kept);
    }
  }

  lemma {:induction false} SlotUnintruded(pages: map<nat, Page>, pages': map<nat, Page>, x: nat, mapping: Option<nat>,
                                          a: nat, hole: nat, kept: set<nat>)
    requires SlotOk(pages, x, mapping, a, hole) && x != 0 && (mapping.Some? ==> mapping.value in kept)
    requires KeptIn(pages, pages', kept) && NoIntruders(pages, pages', kept)
    ensures SlotOk(pages', x, mapping, a, hole)
  {
  }

  lemma {:induction false} HeldReferences(pages: map<nat, Page>, held: seq<Option<nat>>)
    requires Owned(pages, held)
    ensures References(held) <= pages.Keys
  {
  }

  lemma {:induction false} ForeignRevived(held: seq<Option<nat>>, v: nat, now: Option<nat>, others: set<nat>)
    requires Foreign(held, others) && v < |held| && now.Some? && now.value !in others
    ensures Foreign(held[v := now], others)
  {
  }

  lemma {:induction false} LessForeign(pages: map<nat, Page>, held: seq<Option<nat>>, physical: seq<nat>,
                                       others: set<nat>, more: set<nat>)
    ensures Foreign(held, others + more) ==> Foreign(held, others)
    ensures Apart(pages, others + more, physical) ==> Apart(pages, others, physical)
  {
  }

  lemma {:induction false} FewerOthers(pages: map<nat, Page>, held: seq<Option<nat>>, physical: seq<nat>,
                                       others: set<nat>, fewer: set<nat>)
    requires Foreign(held, others) && Apart(pages, others, physical) && fewer <= others
    ensures Foreign(held, fewer) && Apart(pages, fewer, physical)
  {
  }

  lemma {:induction false} SmallForeign(held: seq<Option<nat>>, small: seq<nat>, others: set<nat>,
                                        escaped: map<nat, Page>)
    requires Foreign(held, others + escaped.Keys) && escaped.Keys !! others && forall q | q in small :: q in others
    ensures Foreign(held + Somes(small), others - (set q | q in small) + escaped.Keys)
  {
    var all := held + Somes(small);
    forall i | 0 <= i < |all| && all[i].Some?
      ensures all[i].value !in others - (set q | q in small) + escaped.Keys
    {
      if i >= |held| { assert all[i] == Some(small[i - |held|]) && small[i - |held|] in small; }
    }
  }

  /** One device's graph, as far as its pages go. */
  class GraphPages {
    const vmm: Vmm
    const base: nat
    var vaPhys: seq<nat>
    var mappings: seq<Option<nat>>
    var blackHoles: seq<nat>
    var physical: seq<nat>

    /** What the small heap holds, in the order it is given back. */
    var small: seq<nat>

    constructor (vmm: Vmm, base: nat)
      requires vmm.Valid() && base > 0
      ensures Valid() && this.vmm == vmm && this.base == base
      ensures mappings == [] && physical == [] && vaPhys == [] && blackHoles == []
    {
      this.vmm, this.base := vmm, base;
      vaPhys, mappings, blackHoles, physical, small := [], [], [], [], [];
    }

    ghost function Held(): seq<Option<nat>>
      reads this
    {
      mappings + Somes(physical)
    }

    /** Enough to give everything back. */
    ghost predicate Holds()
      reads this, vmm
    {
      vmm.Valid() && base > 0 && Owned(vmm.pages, Held())
    }

    ghost predicate Valid()
      reads this, vmm
    {
      && Holds()
      && PhysicalOk(vmm.pages, physical)
      && SlotsOk(vmm.pages, base, mappings, vaPhys, blackHoles, Memories(vmm.pages, physical), 0, |vaPhys|)
    }

    /** A new physical page at the end. */
    method AddPhysical(ghost others: set<nat>) returns (ok: bool)
      requires Valid() && others <= vmm.pages.Keys && Foreign(Held(), others) && Apart(vmm.pages, others, physical)
      modifies this`physical, vmm
      ensures Valid() && vmm.next >= old(vmm.next) && Moved(old(vmm.pages), vmm.pages, None, 0)
      ensures Foreign(Held(), others) && Apart(vmm.pages, others, physical)
      ensures |physical| == old(|physical|) + (if ok then 1 else 0)
      ensures vmm.willing ==> ok
    {
      hide Inv, SlotOk, Owned, PhysicalOk, SlotsOk, Foreign, Apart;
      ghost var pages, was := vmm.pages, physical;
      PhysicalIn(pages, physical);
      Bounds(vmm);
      var page;
      ok, page := CreatePage();
      if ok {
        physical := physical + [page];
        PhysicalAdded(pages, vmm.pages, was, page, others);
        assert Held() == mappings + Somes(was) + [Some(page)];
        HeldAdded(pages, vmm.pages, mappings + Somes(was), page, others);
        SlotsNew(pages, vmm.pages, base, mappings, vaPhys, blackHoles, Memories(pages, was));
        SlotsMore(vmm.pages, base, mappings, vaPhys, blackHoles, Memories(pages, was), Memories(vmm.pages, physical));
      }
    }

    /** The next virtual page, on a physical page there is. */
    method MapVirtual(phys: nat, ghost others: set<nat>) returns (ok: bool)
      requires Valid() && phys < |physical| && |vaPhys| < MG_PAGES && Room(vmm.pages, base, |vaPhys|)
      requires others <= vmm.pages.Keys && Foreign(Held(), others) && Apart(vmm.pages, others, physical)
      modifies this`vaPhys, this`mappings, this`blackHoles, vmm
      ensures Valid() && vmm.next >= old(vmm.next) && Kept(old(vmm.pages), vmm.pages)
      ensures others <= vmm.pages.Keys && Foreign(Held(), others) && Apart(vmm.pages, others, physical)
      ensures ok ==> vaPhys == old(vaPhys) + [phys] && Room(vmm.pages, base, |vaPhys|)
      ensures ok ==>
                |mappings| == |vaPhys| && mappings == old(mappings) + [mappings[|vaPhys| - 1]] &&
                mappings[|vaPhys| - 1].Some?
      ensures ok ==> blackHoles == old(blackHoles) + [0]
      ensures !ok ==> vaPhys == old(vaPhys) && mappings == old(mappings) && blackHoles == old(blackHoles)
      ensures vmm.willing ==> ok
    {
      hide Inv, SlotOk, Owned, PhysicalOk, SlotsOk, Foreign, Apart, Room, Moved, Kept;
      ghost var pages, was, vas, holes := vmm.pages, mappings, vaPhys, blackHoles;
      PhysicalIn(pages, physical);
      ghost var memories := Memories(pages, physical);
      SlotsIn(pages, base, mappings, vaPhys, blackHoles, memories);
      RoomFree(pages, base, |vaPhys|);
      var x := base + |vaPhys| * MG_PAGE;
      var reference;
      ok, reference := MapOne(vmm, x, physical[phys]);
      PhysicalMoved(pages, vmm.pages, x, physical);
      ApartMoved(pages, vmm.pages, x, physical, others);
      HeldKept(pages, vmm.pages, Held());
      SlotsBelow(pages, vmm.pages, base, was, vas, holes, memories);
      if ok {
        vaPhys, mappings, blackHoles := vaPhys + [phys], mappings + [Some(reference)], blackHoles + [0];
        SlotsAppended(pages, vmm.pages, base, was, vas, holes, memories, phys, reference);
        assert Held() == was + [Some(reference)] + Somes(physical);
        HeldInserted(pages, vmm.pages, was, Somes(physical), reference, others);
        RoomAfter(pages, vmm.pages, base, |vas|);
      }
    }

    /** `map_page`: the next virtual page, on a physical page there is or on a new one. */
    method MapPage(phys: nat, ghost others: set<nat>) returns (ok: bool)
      requires Valid() && phys <= |physical| && |vaPhys| < MG_PAGES && Room(vmm.pages, base, |vaPhys|)
      requires others <= vmm.pages.Keys && Foreign(Held(), others) && Apart(vmm.pages, others, physical)
      modifies this`vaPhys, this`mappings, this`blackHoles, this`physical, vmm
      ensures Valid() && vmm.next >= old(vmm.next) && Kept(old(vmm.pages), vmm.pages)
      ensures others <= vmm.pages.Keys && Foreign(Held(), others) && Apart(vmm.pages, others, physical)
      ensures ok ==> vaPhys == old(vaPhys) + [phys] && Room(vmm.pages, base, |vaPhys|)
      ensures ok ==> |physical| == if phys == old(|physical|) then phys + 1 else old(|physical|)
      ensures ok ==>
                |mappings| == |vaPhys| && mappings == old(mappings) + [mappings[|vaPhys| - 1]] &&
                mappings[|vaPhys| - 1].Some?
      ensures ok ==> blackHoles == old(blackHoles) + [0]
      ensures !ok ==> vaPhys == old(vaPhys) && mappings == old(mappings) && blackHoles == old(blackHoles)
      ensures vmm.willing ==> ok
    {
      hide Inv, SlotOk, Owned, PhysicalOk, SlotsOk, Foreign, Apart, Room;
      if phys == |physical| {
        ghost var pages := vmm.pages;
        ok := AddPhysical(others);
        RoomMoved(pages, vmm.pages, base, |vaPhys|, 0);
        if !ok { return; }
      }
      ok := MapVirtual(phys, others);
    }

    /** One virtual page: drop its mapping, and map the replacement unless it is a black hole. */
    method Remap(v: nat, replacement: nat, ghost a: nat) returns (ok: bool)
      requires vmm.Valid() && base > 0 && v < |mappings| == |blackHoles| && mappings[v].Some?
      requires SlotOk(vmm.pages, base + v * MG_PAGE, mappings[v], a, blackHoles[v])
      requires replacement in vmm.pages && mappings[v] != Some(replacement)
      modifies this`mappings, vmm
      ensures vmm.Valid() && vmm.next >= old(vmm.next)
      ensures |mappings| == old(|mappings|) && mappings == old(mappings)[v := mappings[v]]
      ensures HeldNext(old(vmm.pages), vmm.pages, old(mappings[v]), mappings[v])
      ensures Moved(old(vmm.pages), vmm.pages, old(mappings[v]), base + v * MG_PAGE)
      ensures ok ==> SlotOk(vmm.pages, base + v * MG_PAGE, mappings[v],
                            old(vmm.pages[replacement].allocation), blackHoles[v])
      ensures ok ==> (mappings[v] == None <==> blackHoles[v] != 0)
      ensures vmm.willing ==> ok
    {
      hide Inv, SlotOk, Moved;
      var x := base + v * MG_PAGE;
      var page := mappings[v].value;
      ghost var pages := vmm.pages;
      SlotFacts(pages, x, mappings[v], a, blackHoles[v]);
      ok := DropOne(vmm, page);
      if !ok { return; }
      ghost var pages1 := vmm.pages;
      SlotLeft(pages, pages1, x, page, a, blackHoles[v]);
      mappings := mappings[v := None];
      if blackHoles[v] == 0 {
        var reference;
        ok, reference := MapOne(vmm, x, replacement);
        if ok {
          mappings := mappings[v := Some(reference)];
          SlotMapped(pages1, x, reference, pages[replacement].allocation);
        }
        MovedTwice(pages, pages1, vmm.pages, Some(page), x);
      }
    }

    /** `Remap` in the walk over all pages. */
    method RemapOne(v: nat, replacements: seq<Option<nat>>, ghost others: set<nat>, ghost before: seq<nat>,
                    ghost after: seq<nat>)
      returns (ok: bool)
      requires vmm.Valid() && base > 0
      requires Owned(vmm.pages, Held() + replacements) && Foreign(Held() + replacements, others)
      requires SourcesOk(vmm.pages, physical, replacements, before, after)
      requires v < |vaPhys| == |mappings| && |replacements| == |physical| && vaPhys[v] < |replacements|
      requires replacements[vaPhys[v]].Some? && mappings[v].Some? && others <= vmm.pages.Keys
      requires SlotsOk(vmm.pages, base, mappings, vaPhys, blackHoles, before, v, |vaPhys|)
      modifies this`mappings, vmm
      ensures vmm.Valid() && vmm.next >= old(vmm.next) && |mappings| == old(|mappings|)
      ensures Owned(vmm.pages, Held() + replacements) && Foreign(Held() + replacements, others)
      ensures KeptIn(old(vmm.pages), vmm.pages, others)
      ensures SourcesOk(vmm.pages, physical, replacements, before, after)
      ensures SlotsOk(vmm.pages, base, mappings, vaPhys, blackHoles, before, v + 1, |vaPhys|)
      ensures forall w | 0 <= w < |mappings| && w != v :: mappings[w] == old(mappings[w])
      ensures old(SlotsOk(vmm.pages, base, mappings, vaPhys, blackHoles, after, 0, v)) && ok ==>
                SlotsOk(vmm.pages, base, mappings, vaPhys, blackHoles, after, 0, v + 1)
      ensures ok ==> (mappings[v] == None <==> blackHoles[v] != 0)
      ensures vmm.willing ==> ok
    {
      hide SlotOk, Owned, Moved, HeldNext, Foreign, Inv, SourcesOk, KeptIn;
      SourcesPlace(vmm.pages, physical, replacements, before, after, vaPhys[v]);
      ghost var pages, was, gone := vmm.pages, mappings, mappings[v];
      ghost var x := base + v * MG_PAGE;
      ghost var a := before[vaPhys[v]];
      HeldDistinct(vmm.pages, Held() + replacements, v, |Held()| + vaPhys[v]);
      assert SlotOk(pages, x, gone, a, blackHoles[v]);
      SlotFacts(pages, x, gone, a, blackHoles[v]);
      ok := Remap(v, replacements[vaPhys[v]].value, a);
      SourcesFrame(pages, vmm.pages, gone, x, physical, replacements, before, after);
      SlotsFrame(pages, vmm.pages, gone, v, base, was, mappings, vaPhys, blackHoles, before, v + 1, |vaPhys|);
      if old(SlotsOk(vmm.pages, base, mappings, vaPhys, blackHoles, after, 0, v)) && ok {
        SlotsFrame(pages, vmm.pages, gone, v, base, was, mappings, vaPhys, blackHoles, after, 0, v);
      }
      OwnedMoved(pages, vmm.pages, x, was + Somes(physical) + replacements, v, mappings[v]);
      assert Held() + replacements == (was + Somes(physical) + replacements)[v := mappings[v]];
      ForeignMoved(pages, vmm.pages, was + Somes(physical) + replacements, v, mappings[v], x, others);
    }

    /**
     The walk over all virtual pages in `finalize_rogues`.  It gives every mapping up without
     a test for null, and so crashes at the first replaced page that has none.
     */
    method RemapAll(replacements: seq<Option<nat>>, ghost others: set<nat>, ghost before: seq<nat>,
                    ghost after: seq<nat>)
      returns (ok: bool, crashed: bool)
      requires vmm.Valid() && base > 0
      requires Owned(vmm.pages, Held() + replacements) && Foreign(Held() + replacements, others) &&
               others <= vmm.pages.Keys
      requires SourcesOk(vmm.pages, physical, replacements, before, after)
      requires |mappings| == |vaPhys| && SlotsOk(vmm.pages, base, mappings, vaPhys, blackHoles, before, 0, |vaPhys|)
      modifies this`mappings, vmm
      ensures vmm.Valid() && vmm.next >= old(vmm.next) && |mappings| == old(|mappings|)
      ensures Owned(vmm.pages, Held() + replacements) && Foreign(Held() + replacements, others)
      ensures KeptIn(old(vmm.pages), vmm.pages, others)
      ensures SourcesOk(vmm.pages, physical, replacements, before, after)
      ensures crashed <==> exists v | 0 <= v < |vaPhys| :: old(mappings[v]) == None && replacements[vaPhys[v]].Some?
      ensures crashed ==> !ok
      ensures ok ==> SlotsOk(vmm.pages, base, mappings, vaPhys, blackHoles, after, 0, |vaPhys|)
      ensures ok ==> forall v | 0 <= v < |vaPhys| :: mappings[v] == None <==>
                old(mappings[v]) == None || (replacements[vaPhys[v]].Some? && blackHoles[v] != 0)
      ensures vmm.willing && !crashed ==> ok
    {
      hide SlotOk, Owned, Foreign, SourcesOk, Inv;
      SourcesSame(vmm.pages, physical, replacements, before, after);
      ok, crashed := true, false;
      var v := 0;
      while v < |vaPhys|
        invariant v <= |vaPhys| == |mappings| && !crashed && (vmm.willing ==> ok)
        invariant forall w | 0 <= w < v :: old(mappings[w]) == None ==> replacements[vaPhys[w]] == None
        invariant vmm.Valid() && vmm.next >= old(vmm.next)
        invariant Owned(vmm.pages, Held() + replacements) && Foreign(Held() + replacements, others) &&
                  others <= vmm.pages.Keys
        invariant KeptIn(old(vmm.pages), vmm.pages, others)
        invariant forall w | v <= w < |vaPhys| :: mappings[w] == old(mappings[w])
        invariant SourcesOk(vmm.pages, physical, replacements, before, after)
        invariant SlotsOk(vmm.pages, base, mappings, vaPhys, blackHoles, before, v, |vaPhys|)
        invariant ok ==> SlotsOk(vmm.pages, base, mappings, vaPhys, blackHoles, after, 0, v)
        invariant ok ==> forall w | 0 <= w < v :: mappings[w] == None <==>
                    old(mappings[w]) == None || (replacements[vaPhys[w]].Some? && blackHoles[w] != 0)
      {
        if replacements[vaPhys[v]].Some? {
          if mappings[v] == None {
            return false, true;
          }
          var moved := RemapOne(v, replacements, others, before, after);
          ok := ok && moved;
        }
        v := v + 1;
      }
    }

    /** The replacements take the places of the physical pages; failures to release are ignored. */
    method SwapPhysical(replacements: seq<Option<nat>>, ghost others: set<nat>, ghost before: seq<nat>,
                        ghost after: seq<nat>)
      requires vmm.Valid() && base > 0
      requires Owned(vmm.pages, Held() + replacements) && Foreign(Held() + replacements, others)
      requires SourcesOk(vmm.pages, physical, replacements, before, after)
      modifies this`physical, vmm
      ensures vmm.Valid() && Owned(vmm.pages, Held()) && Foreign(Held(), others)
      ensures KeptIn(old(vmm.pages), vmm.pages, others)
      ensures |physical| == |after| && forall i | 0 <= i < |physical| ::
                physical[i] in vmm.pages && vmm.pages[physical[i]] == Page(after[i], 0)
      ensures old(SlotsOk(vmm.pages, base, mappings, vaPhys, blackHoles, after, 0, |vaPhys|)) ==>
                SlotsOk(vmm.pages, base, mappings, vaPhys, blackHoles, after, 0, |vaPhys|)
    {
      hide SlotOk, Inv, Owned, Moved, SourcesOk, SlotsOk;
      ghost var rest: seq<Option<nat>>, now: seq<nat> := replacements, before;
      SourcesSame(vmm.pages, physical, replacements, before, after);
      var i := 0;
      while i < |physical|
        invariant i <= |physical| == |after| == |rest| == |now|
        invariant vmm.Valid() && Owned(vmm.pages, Held() + rest) && Foreign(Held() + rest, others)
        invariant KeptIn(old(vmm.pages), vmm.pages, others)
        invariant SourcesOk(vmm.pages, physical, rest, now, after)
        invariant forall j | 0 <= j < |rest| :: rest[j] == if j < i then None else replacements[j]
        invariant old(SlotsOk(vmm.pages, base, mappings, vaPhys, blackHoles, after, 0, |vaPhys|)) ==>
                    SlotsOk(vmm.pages, base, mappings, vaPhys, blackHoles, after, 0, |vaPhys|)
      {
        if replacements[i].Some? {
          SwapOne(i, replacements[i].value, others, rest, now, after);
          rest, now := rest[i := None], now[i := after[i]];
        }
        i := i + 1;
      }
      SourcesAll(vmm.pages, physical, rest, now, after);
      OwnedPrefix(vmm.pages, Held(), rest);
      assert forall j | 0 <= j < |Held()| :: Held()[j] == (Held() + rest)[j];
    }

    method SwapOne(i: nat, replacement: nat, ghost others: set<nat>, ghost rest: seq<Option<nat>>, ghost now: seq<nat>,
                   ghost after: seq<nat>)
      requires vmm.Valid() && base > 0 && i < |physical| == |rest| == |now| == |after| && rest[i] == Some(replacement)
      requires Owned(vmm.pages, Held() + rest) && Foreign(Held() + rest, others)
      requires SourcesOk(vmm.pages, physical, rest, now, after)
      modifies this`physical, vmm
      ensures vmm.Valid() && physical == old(physical)[i := replacement]
      ensures Owned(vmm.pages, Held() + rest[i := None]) && Foreign(Held() + rest[i := None], others)
      ensures KeptIn(old(vmm.pages), vmm.pages, others)
      ensures SourcesOk(vmm.pages, physical, rest[i := None], now[i := after[i]], after)
      ensures old(SlotsOk(vmm.pages, base, mappings, vaPhys, blackHoles, after, 0, |vaPhys|)) ==>
                SlotsOk(vmm.pages, base, mappings, vaPhys, blackHoles, after, 0, |vaPhys|)
    {
      hide SlotOk, SlotsOk, Inv, Owned, Moved;
      ghost var pages, was := vmm.pages, physical;
      var page := physical[i];
      physical := physical[i := replacement];
      assert (mappings + Somes(was) + rest)[|mappings| + i] == Some(page);
      assert (mappings + Somes(was) + rest)[|mappings| + |was| + i] == rest[i];
      var _ := DropOne(vmm, page);
      OwnedSwap(pages, vmm.pages, mappings, was, rest, i);
      SourcesSwap(pages, vmm.pages, was, rest, now, after, i);
      if old(SlotsOk(vmm.pages, base, mappings, vaPhys, blackHoles, after, 0, |vaPhys|)) {
        SlotsWithout(pages, vmm.pages, page, base, mappings, vaPhys, blackHoles, after);
      }
      assert mappings + Somes(physical) + rest[i := None]
          == (mappings + Somes(was) + rest)[|mappings| + i := rest[i]][|mappings| + |was| + i := None];
    }

    /** `create_page`: eviction of loaded weights makes room for a second try. */
    method CreatePage() returns (ok: bool, page: nat)
      requires vmm.Valid()
      modifies vmm
      ensures vmm.Valid() && vmm.next >= old(vmm.next)
      ensures ok ==> page >= old(vmm.next) && vmm.pages == old(vmm.pages)[page := Page(page, 0)]
      ensures !ok ==> vmm.pages == old(vmm.pages)
      ensures vmm.willing ==> ok
    {
      hide Inv;
      ok, page := vmm.PageAlloc(MG_PAGE);
      if !ok {
        ok, page := vmm.PageAlloc(MG_PAGE);
      }
    }

    /** New memory for the physical pages under one candidate. */
    method CreateFor(c: Candidate, ghost earlier: seq<Candidate>, was: seq<Option<nat>>, ghost next: nat)
      returns (ok: bool, replacements: seq<Option<nat>>)
      requires vmm.Valid() && c.first + c.count <= |vaPhys| && |was| == |physical|
      requires forall v | 0 <= v < |vaPhys| :: vaPhys[v] < |was|
      requires NewPages(vmm.pages, next, was) && next <= vmm.next
      requires forall i | 0 <= i < |was| :: was[i].Some? <==> Wanted(earlier, vaPhys, i)
      modifies vmm
      ensures vmm.Valid() && vmm.next >= old(vmm.next) && |replacements| == |was|
      ensures Moved(old(vmm.pages), vmm.pages, None, 0) && NewPages(vmm.pages, next, replacements)
      ensures ok ==> forall i | 0 <= i < |was| :: replacements[i].Some? <==> Wanted(earlier + [c], vaPhys, i)
      ensures vmm.willing ==> ok
    {
      hide Inv;
      replacements := was;
      var i := 0;
      while i < c.count
        invariant i <= c.count && |replacements| == |was|
        invariant vmm.Valid() && vmm.next >= old(vmm.next)
        invariant Moved(old(vmm.pages), vmm.pages, None, 0) && NewPages(vmm.pages, next, replacements)
        invariant forall p | 0 <= p < |was| :: replacements[p].Some? <==>
                    Wanted(earlier, vaPhys, p) || exists v | c.first <= v < c.first + i :: vaPhys[v] == p
      {
        var phys := vaPhys[c.first + i];
        if replacements[phys] == None {
          ghost var pages := vmm.pages;
          var page;
          ok, page := CreatePage();
          if !ok { return; }
          replacements := replacements[phys := Some(page)];
        }
        i := i + 1;
      }
      ok := true;
      forall p | 0 <= p < |was|
        ensures replacements[p].Some? <==> Wanted(earlier + [c], vaPhys, p)
      {
        WantedMore(earlier, c, vaPhys, p);
      }
    }

    /** New memory for every physical page under a candidate, or none at all. */
    method CreateReplacements(candidates: seq<Candidate>) returns (ok: bool, replacements: seq<Option<nat>>)
      requires vmm.Valid() && forall k | 0 <= k < |candidates| :: candidates[k].first + candidates[k].count <= |vaPhys|
      requires forall v | 0 <= v < |vaPhys| :: vaPhys[v] < |physical|
      modifies vmm
      ensures vmm.Valid() && vmm.next >= old(vmm.next) && |replacements| == |physical|
      ensures ok ==> Moved(old(vmm.pages), vmm.pages, None, 0) && NewPages(vmm.pages, old(vmm.next), replacements)
      ensures ok ==> forall i | 0 <= i < |physical| :: replacements[i].Some? <==> Wanted(candidates, vaPhys, i)
      ensures forall q | q in old(vmm.pages) :: q in vmm.pages && vmm.pages[q] == old(vmm.pages[q])
      ensures vmm.willing ==> ok
    {
      hide Inv, Moved, NewPages;
      ghost var pages, next := vmm.pages, vmm.next;
      replacements := seq(|physical|, _ => None);
      NoNewPages(pages, next, replacements);
      MovedRefl(pages, None, 0);
      var k := 0;
      while k < |candidates|
        invariant k <= |candidates| && |replacements| == |physical|
        invariant vmm.Valid() && vmm.next >= next
        invariant Moved(pages, vmm.pages, None, 0) && NewPages(vmm.pages, next, replacements)
        invariant forall i | 0 <= i < |physical| :: replacements[i].Some? <==> Wanted(candidates[..k], vaPhys, i)
      {
        ghost var pages1 := vmm.pages;
        ok, replacements := CreateFor(candidates[k], candidates[..k], replacements, next);
        MovedTwice(pages, pages1, vmm.pages, None, 0);
        if !ok {
          MovedFacts(pages, vmm.pages, None, 0);
          NewOwned(vmm.pages, next, replacements);
          var _ := DropHeld(vmm, replacements);
          return;
        }
        assert candidates[..k + 1] == candidates[..k] + [candidates[k]];
        k := k + 1;
      }
      ok := true;
      MovedFacts(pages, vmm.pages, None, 0);
      assert candidates[..k] == candidates;
    }

    /**
     `finalize_rogues`, once the escaped allocations hold references of their own.  What
     others hold is left alone whatever fails.  On success every virtual page is still
     mapped, to its physical page's new memory, but for the escaped ones, which the graph
     has let go of; and no physical page of the graph is memory of any other holder.  Once
     the replacements are `made`, it crashes exactly when some virtual page without a
     mapping, a black hole of an earlier escape, lies on a physical page that is wanted.
     */
    method FinalizeRogues(candidates: seq<Candidate>, ghost others: set<nat>)
      returns (ok: bool, crashed: bool, ghost made: bool)
      requires Valid() && others <= vmm.pages.Keys && Foreign(Held(), others)
      requires forall k | 0 <= k < |candidates| :: candidates[k].first + candidates[k].count <= |vaPhys|
      requires SharedOnlyBy(vmm.pages, others, physical, candidates, vaPhys)
      modifies this`mappings, this`physical, vmm
      ensures Holds() && Foreign(Held(), others) && KeptIn(old(vmm.pages), vmm.pages, others)
      ensures crashed <==> made && exists v | 0 <= v < |vaPhys| ::
                old(mappings)[v] == None && Wanted(candidates, vaPhys, vaPhys[v])
      ensures ok ==> made && !crashed
      ensures ok ==> Valid() && Apart(vmm.pages, others, physical)
      ensures ok ==> forall v | 0 <= v < |vaPhys| :: mappings[v] == None <==>
                old(mappings[v]) == None || (Wanted(candidates, vaPhys, vaPhys[v]) && blackHoles[v] != 0)
      ensures vmm.willing ==> made && (ok <==> !crashed)
    {
      hide Inv, SlotOk, Owned, Moved, NewPages, PhysicalOk, SourcesOk, SlotsOk, Apart, SharedOnlyBy, Foreign;
      var replacements;
      ghost var pages, next, was := vmm.pages, vmm.next, physical;
      PhysicalIn(pages, physical);
      ghost var before := Memories(pages, physical);
      SlotsIn(pages, base, mappings, vaPhys, blackHoles, before);
      Bounds(vmm);
      ok, replacements := CreateReplacements(candidates);
      made, crashed := ok, false;
      if !ok {
        OwnedKept(pages, vmm.pages, Held());
        return;
      }
      ghost var after := Replaced(before, replacements);
      SlotsNew(pages, vmm.pages, base, mappings, vaPhys, blackHoles, before);
      OwnedNew(pages, vmm.pages, next, Held(), replacements, others);
      SourcesNew(pages, vmm.pages, next, physical, replacements);
      MemoriesDiffer(pages, vmm.pages, next, physical, replacements);
      NewOwned(vmm.pages, next, replacements);
      ok, crashed := RemapAll(replacements, others, before, after);
      if crashed {
        OwnedPrefix(vmm.pages, Held(), replacements);
        ForeignPrefix(Held(), replacements, others);
        return;
      }
      SwapPhysical(replacements, others, before, after);
      PhysicalNow(vmm.pages, physical, after);
      SharedFacts(pages, others, was, candidates, vaPhys);
      ApartAfter(pages, vmm.pages, next, was, physical, replacements, others);
    }

    /** `rogue_va`: a black hole whose escaped allocation is gone becomes an ordinary page again. */
    method Revive(v: nat) returns (ok: bool)
      requires Valid() && v < |vaPhys| && blackHoles[v] != 0 && mappings[v] == None
      requires forall q | q in vmm.pages :: vmm.pages[q].address != base + v * MG_PAGE
      modifies this`mappings, this`blackHoles, vmm
      ensures vmm.Valid() && Moved(old(vmm.pages), vmm.pages, None, base + v * MG_PAGE)
      ensures ok ==> Valid() && mappings[v].Some? && blackHoles == old(blackHoles)[v := 0]
      ensures ok ==> mappings == old(mappings)[v := mappings[v]] && mappings[v].value !in old(vmm.pages)
      ensures vmm.willing ==> ok
    {
      hide Inv, Owned, PhysicalOk, Moved, SlotOk, SlotsOk;
      ghost var pages, was, holes := vmm.pages, mappings, blackHoles;
      PhysicalIn(pages, physical);
      ghost var memories := Memories(pages, physical);
      SlotsIn(pages, base, mappings, vaPhys, blackHoles, memories);
      var x := base + v * MG_PAGE;
      var reference;
      ok, reference := MapOne(vmm, x, physical[vaPhys[v]]);
      if ok {
        mappings, blackHoles := mappings[v := Some(reference)], blackHoles[v := 0];
        SlotsRevived(pages, vmm.pages, base, was, vaPhys, holes, memories, v, reference);
        PhysicalMoved(pages, vmm.pages, x, physical);
        assert Held() == (was + Somes(physical))[v := Some(reference)];
        OwnedRevived(pages, vmm.pages, x, was + Somes(physical), v, reference);
      }
    }

    /** `malloc_graph_destroy`: everything the graph holds goes, and nothing else. */
    method Destroy(ghost others: set<nat>)
      requires vmm.Valid() && Owned(vmm.pages, Held() + Somes(small)) && Foreign(Held() + Somes(small), others)
      modifies vmm
      ensures vmm.Valid() && KeptIn(old(vmm.pages), vmm.pages, others)
      ensures !vmm.trouble ==> vmm.pages.Keys == old(vmm.pages.Keys) - References(Held() + Somes(small))
    {
      hide Inv;
      ghost var p0 := vmm.pages;
      OwnedParts(p0, mappings, Somes(physical), Somes(small));
      var _ := DropHeld(vmm, mappings);
      ghost var p1 := vmm.pages;
      OwnedLeft(p0, p1, mappings, Somes(physical));
      OwnedLeft(p0, p1, mappings, Somes(small));
      var _ := DropHeld(vmm, Somes(physical));
      OwnedLeft(p1, vmm.pages, Somes(physical), Somes(small));
      var _ := DropHeld(vmm, Somes(small));
      forall q
        ensures q in References(Held() + Somes(small)) <==>
                  Some(q) in mappings || Some(q) in Somes(physical) || Some(q) in Somes(small)
      {
        ReferencesOf(Held() + Somes(small), q);
      }
      forall q | q in others
        ensures Some(q) !in Held() + Somes(small)
      {
        ReferencesOf(Held() + Somes(small), q);
      }
    }

    /** One round of `handoff_rogues`, for a large allocation. */
    method Handoff(c: Candidate, freed: bool) returns (outcome: Outcome, references: seq<nat>)
      requires Valid() && c.first + c.count <= |vaPhys|
      requires forall v | c.first <= v < c.first + c.count :: blackHoles[v] == 0
      modifies this`blackHoles, vmm
      ensures vmm.Valid() && vmm.next >= old(vmm.next)
      ensures forall q | q in old(vmm.pages) :: q in vmm.pages && vmm.pages[q] == old(vmm.pages[q])
      ensures outcome != Escaped ==> blackHoles == old(blackHoles)
      ensures outcome == Freed ==> freed && vmm.pages == old(vmm.pages)
      ensures outcome == Escaped ==> Valid() && !freed && NewReferences(vmm.pages, old(vmm.next), references)
      ensures outcome == Escaped ==> Added(old(vmm.pages), vmm.pages, references)
      ensures outcome == Escaped ==> Mirrors(old(vmm.pages), vmm.pages, physical, vaPhys, base, c, references)
      ensures outcome == Escaped ==> Marked(old(blackHoles), blackHoles, c, base + c.first * MG_PAGE)
      ensures vmm.willing ==> outcome == if freed then Freed else Escaped
    {
      hide Inv, SlotOk, SlotsOk, Owned, PhysicalOk, Moved, Copies, Added, NewReferences, Mirrors;
      ghost var pages := vmm.pages;
      Bounds(vmm);
      PhysicalIn(pages, physical);
      ghost var memories := Memories(pages, physical);
      SlotsIn(pages, base, mappings, vaPhys, blackHoles, memories);
      var sources := PagesOf(c);
      var ptr := base + c.first * MG_PAGE;
      assert (ptr - base) % MG_PAGE == 0;
      forall i | 0 <= i < |sources|
        ensures ptr + i * MG_PAGE in vmm.mapped && vmm.mapped[ptr + i * MG_PAGE] == pages[sources[i]].allocation
      {
        OrdinaryMapped(vmm.State(), vmm.outside, base, mappings, vaPhys, blackHoles, memories, c.first + i);
        assert ptr + i * MG_PAGE == base + (c.first + i) * MG_PAGE;
      }
      outcome, references := HandoffRogue(vmm, base, ptr, sources, freed);
      if outcome == Escaped {
        MirrorsCopies(pages, vmm.pages, physical, vaPhys, base, c, sources, references);
        OwnedKept(pages, vmm.pages, Held());
        PhysicalKept(pages, vmm.pages, physical);
        ghost var holes := blackHoles;
        MarkHoles(c, ptr);
        SlotsHanded(pages, vmm.pages, physical, base, mappings, vaPhys, holes, blackHoles, memories, c, references);
      }
    }

    /** The physical pages of an escaped allocation, in order. */
    method PagesOf(c: Candidate) returns (sources: seq<nat>)
      requires c.first + c.count <= |vaPhys| && forall v | 0 <= v < |vaPhys| :: vaPhys[v] < |physical|
      ensures |sources| == c.count && forall i | 0 <= i < c.count :: sources[i] == physical[vaPhys[c.first + i]]
    {
      sources := [];
      while |sources| < c.count
        invariant |sources| <= c.count && forall i | 0 <= i < |sources| :: sources[i] == physical[vaPhys[c.first + i]]
        decreases c.count - |sources|
      {
        sources := sources + [physical[vaPhys[c.first + |sources|]]];
      }
    }

    method MarkHoles(c: Candidate, ptr: nat)
      requires c.first + c.count <= |blackHoles|
      modifies this`blackHoles
      ensures Marked(old(blackHoles), blackHoles, c, ptr)
    {
      var i := 0;
      while i < c.count
        invariant i <= c.count && Marked(old(blackHoles), blackHoles, Candidate(c.first, i), ptr)
      {
        blackHoles := blackHoles[c.first + i := ptr];
        i := i + 1;
      }
    }

    /** One candidate in `handoff_rogues`; `escaped` collects the references that went out. */
    method HandoffNext(c: Candidate, freed: bool, ghost others: set<nat>, was: map<nat, Page>,
                       ghost earlier: seq<Candidate>, ghost memories: seq<nat>)
      returns (outcome: Outcome, escaped: map<nat, Page>)
      requires Valid() && c.first + c.count <= |vaPhys|
      requires forall v | c.first <= v < c.first + c.count :: blackHoles[v] == 0
      requires Foreign(Held(), others + was.Keys) && others <= vmm.pages.Keys && others !! was.Keys
      requires Kept(was, vmm.pages) && Addressed(was)
      requires SharedOnlyBy(vmm.pages, others + was.Keys, physical, earlier, vaPhys)
      requires Backed(vmm.pages, physical, memories)
      modifies this`blackHoles, vmm
      ensures vmm.Valid() && Kept(old(vmm.pages), vmm.pages)
      ensures others !! escaped.Keys && Kept(was, escaped) && Kept(escaped, vmm.pages) && Addressed(escaped)
      ensures Holds() && Foreign(Held(), others + escaped.Keys)
      ensures outcome != Error ==> Valid()
      ensures outcome != Error ==> Backed(vmm.pages, physical, memories)
      ensures outcome == Freed ==> freed && blackHoles == old(blackHoles)
                                   && SharedOnlyBy(vmm.pages, others + escaped.Keys, physical, earlier, vaPhys)
      ensures outcome == Escaped ==> !freed && Marked(old(blackHoles), blackHoles, c, base + c.first * MG_PAGE)
      ensures outcome == Escaped ==> SharedOnlyBy(vmm.pages, others + escaped.Keys, physical, earlier + [c], vaPhys)
      ensures outcome == Escaped ==> Stands(memories, vaPhys, base, escaped, c)
      ensures vmm.willing ==> outcome == if freed then Freed else Escaped
    {
      hide Inv, SlotOk, SlotsOk, Owned, PhysicalOk, Copies, Added, NewReferences, Mirrors, Foreign, SharedOnlyBy,
           Marked, Standing, Stands, Addressed;
      ghost var pages, next := vmm.pages, vmm.next;
      Bounds(vmm);
      var references;
      outcome, references := Handoff(c, freed);
      escaped := was;
      OwnedKept(pages, vmm.pages, Held());
      if outcome == Escaped {
        escaped := Escapees(vmm.pages, next, references, was, others);
        PhysicalKept(pages, vmm.pages, physical);
        NewAbove(vmm.pages, next, references);
        ForeignGrown(pages, Held(), others + was.Keys, others + escaped.Keys, next);
        SharedGrown(pages, vmm.pages, others + was.Keys, references, physical, vaPhys, base, earlier, c);
        assert others + was.Keys + (set r | r in references) == others + escaped.Keys;
        StandsGrown(pages, vmm.pages, next, physical, vaPhys, base, c, references, was, others);
        AddressedGrown(pages, vmm.pages, next, physical, vaPhys, base, c, references, was, others);
      }
    }

    /**
     `handoff_rogues`.  Every page of an allocation that escapes stands for its original
     memory in a reference of its own.  `freed` says which pointers were freed before their
     handoff; `left` are the candidates that escaped.  Whatever fails, the escaped references
     and those of others stay as they are.
     */
    method HandoffRogues(candidates: seq<Candidate>, freed: seq<bool>, ghost others: set<nat>)
      returns (ok: bool, escaped: map<nat, Page>, left: seq<Candidate>)
      requires Valid() && others <= vmm.pages.Keys && Foreign(Held(), others) && Apart(vmm.pages, others, physical)
      requires |freed| == |candidates| && Separate(candidates, vaPhys, blackHoles)
      modifies this`blackHoles, vmm
      ensures Holds() && Foreign(Held(), others + escaped.Keys) && Kept(old(vmm.pages), vmm.pages)
      ensures Kept(escaped, vmm.pages) && Addressed(escaped) && escaped.Keys !! others
      ensures ok ==> Valid() && left == Escaping(candidates, freed)
      ensures ok ==> Backed(vmm.pages, physical, old(Memories(vmm.pages, physical)))
      ensures ok ==> SharedOnlyBy(vmm.pages, others + escaped.Keys, physical, left, vaPhys)
      ensures ok ==> HolesAre(old(blackHoles), blackHoles, left)
      ensures ok ==> forall k | 0 <= k < |candidates| && !freed[k] ::
                Stands(old(Memories(vmm.pages, physical)), vaPhys, base, escaped, candidates[k])
      ensures vmm.willing ==> ok
    {
      hide Inv, SlotOk, SlotsOk, Owned, PhysicalOk, Foreign, Apart, SharedOnlyBy, Separate, Stands, Marked, Covers,
           Wanted, Addressed, HolesAre, Escaping;
      ghost var pages := vmm.pages;
      PhysicalIn(pages, physical);
      ghost var memories := Memories(pages, physical);
      SlotsIn(pages, base, mappings, vaPhys, blackHoles, memories);
      escaped, left := map[], [];
      SharedNone(pages, others, physical, vaPhys);
      assert others + escaped.Keys == others && candidates[0..] == candidates;
      EscapingNone(candidates, freed);
      HolesSame(blackHoles);
      NoneAddressed();
      var k := 0;
      while k < |candidates|
        invariant k <= |candidates|
        invariant Valid() && Kept(pages, vmm.pages) && Kept(escaped, vmm.pages) && escaped.Keys !! others &&
                  Addressed(escaped)
        invariant mappings == old(mappings) && physical == old(physical)
        invariant Backed(vmm.pages, physical, memories)
        invariant Foreign(Held(), others + escaped.Keys)
        invariant SharedOnlyBy(vmm.pages, others + escaped.Keys, physical, left, vaPhys)
        invariant Separate(candidates[k..], vaPhys, blackHoles)
        invariant left == Escaping(candidates[..k], freed[..k])
        invariant HolesAre(old(blackHoles), blackHoles, left)
        invariant forall j | 0 <= j < k && !freed[j] :: Stands(memories, vaPhys, base, escaped, candidates[j])
      {
        SeparateFirst(candidates[k..], vaPhys, blackHoles);
        var was := escaped;
        ghost var before := blackHoles;
        var outcome;
        outcome, escaped := HandoffNext(candidates[k], freed[k], others, was, left, memories);
        if outcome == Error {
          return false, escaped, left;
        }
        EscapingMore(candidates, freed, k);
        if outcome == Escaped {
          HolesMore(old(blackHoles), before, blackHoles, left, candidates[k], base + candidates[k].first * MG_PAGE);
          left := left + [candidates[k]];
        }
        SeparateNext(candidates[k..], vaPhys, before, blackHoles, base + candidates[k].first * MG_PAGE);
        assert candidates[k..][1..] == candidates[k + 1..];
        forall j | 0 <= j < k && !freed[j]
          ensures Stands(memories, vaPhys, base, escaped, candidates[j])
        {
          StandsStill(memories, vaPhys, base, was, escaped, candidates[j]);
        }
        k := k + 1;
      }
      assert candidates[..k] == candidates && freed[..k] == freed;
      ok := true;
    }

    /**
     A finalisation from handoff to the last remapped alias.  Every page of an allocation
     that escapes stands for its original memory in a reference of its own, and keeps its
     mapping; no other holder's memory is within reach of the graph afterwards.  Whatever
     fails, the escaped references and those of others stay as they are.
     */
    method Escape(candidates: seq<Candidate>, freed: seq<bool>, ghost others: set<nat>)
      returns (ok: bool, crashed: bool, ghost made: bool, escaped: map<nat, Page>)
      requires Valid() && others <= vmm.pages.Keys && Foreign(Held(), others) && Apart(vmm.pages, others, physical)
      requires |freed| == |candidates| && Separate(candidates, vaPhys, blackHoles)
      modifies this`mappings, this`physical, this`blackHoles, vmm
      ensures Holds() && Foreign(Held(), others + escaped.Keys) && KeptIn(old(vmm.pages), vmm.pages, others)
      ensures Kept(escaped, vmm.pages) && Addressed(escaped) && escaped.Keys !! others
      ensures crashed <==> made && exists v | 0 <= v < |vaPhys| ::
                old(mappings)[v] == None && Wanted(Escaping(candidates, freed), vaPhys, vaPhys[v])
      ensures ok ==> made && !crashed && Valid() && Apart(vmm.pages, others + escaped.Keys, physical)
      ensures ok ==> HolesAre(old(blackHoles), blackHoles, Escaping(candidates, freed))
      ensures ok ==> forall v | 0 <= v < |vaPhys| :: mappings[v] == None <==>
                old(mappings)[v] == None || (Wanted(Escaping(candidates, freed), vaPhys, vaPhys[v]) &&
                                             blackHoles[v] != 0)
      ensures ok ==> forall k | 0 <= k < |candidates| && !freed[k] ::
                Stands(old(Memories(vmm.pages, physical)), vaPhys, base, escaped, candidates[k])
      ensures vmm.willing ==> made && (ok <==> !crashed)
    {
      hide Inv, SlotOk, SlotsOk, Owned, PhysicalOk, Foreign, Apart, SharedOnlyBy, Separate, Stands, Wanted, Addressed,
           HolesAre, Escaping;
      ghost var pages, holes := vmm.pages, blackHoles;
      PhysicalIn(pages, physical);
      SlotsIn(pages, base, mappings, vaPhys, blackHoles, Memories(pages, physical));
      crashed, made := false, false;
      var left;
      ok, escaped, left := HandoffRogues(candidates, freed, others);
      if !ok { return; }
      EscapingIn(candidates, freed);
      SeparateRange(left, candidates, vaPhys, holes);
      ok, crashed, made := FinalizeRogues(left, others + escaped.Keys);
    }

    /**
     `malloc_graph_destroy`.  Scopes that are still open hand over what they hold first; if
     that fails, nothing is destroyed.  Every page of every allocation that escapes is still
     mapped to its original memory afterwards.
     */
    method HandOverAndDestroy(candidates: seq<Candidate>, freed: seq<bool>, ghost others: set<nat>)
      returns (ok: bool, escaped: map<nat, Page>)
      requires Valid() && others <= vmm.pages.Keys && Foreign(Held(), others) && Apart(vmm.pages, others, physical)
      requires NoDuplicates(small) && forall q | q in small :: q in others
      requires |freed| == |candidates| && Separate(candidates, vaPhys, blackHoles)
      modifies this`blackHoles, vmm
      ensures vmm.Valid() && Kept(escaped, vmm.pages) && escaped.Keys !! others
      ensures KeptIn(old(vmm.pages), vmm.pages, others - (set q | q in small))
      ensures !ok ==> Kept(old(vmm.pages), vmm.pages)
      ensures ok && !vmm.trouble ==> vmm.pages.Keys !! old(References(Held() + Somes(small)))
      ensures forall r | r in escaped ::
                escaped[r].address in vmm.mapped && vmm.mapped[escaped[r].address] == escaped[r].allocation
      ensures ok ==> forall k | 0 <= k < |candidates| && !freed[k] ::
                Stands(old(Memories(vmm.pages, physical)), vaPhys, base, escaped, candidates[k])
      ensures vmm.willing ==> ok
    {
      hide Inv, Owned, PhysicalOk, SlotsOk, SlotOk, Foreign, Apart, Stands, Separate, HolesAre, Escaping, SharedOnlyBy;
      ghost var pages := vmm.pages;
      var left;
      ok, escaped, left := HandoffRogues(candidates, freed, others);
      if ok {
        ghost var rest := others - (set q | q in small);
        SmallHeld(pages, vmm.pages, Held(), small, others, escaped);
        SmallForeign(Held(), small, others, escaped);
        Destroy(rest + escaped.Keys);
      }
      AllMapped(vmm.State(), vmm.outside, escaped);
    }

    /**
     Any calls by the graph and by others, in any order: new pages, black holes revived,
     further escapes, whatever others do with their own.  References in `kept` stay.
     */
    method LiveOn(kept: set<nat>) returns (alive: bool)
      requires Valid() && kept <= vmm.pages.Keys && Foreign(Held(), kept) && Apart(vmm.pages, kept, physical)
      modifies this`vaPhys, this`mappings, this`blackHoles, this`physical, vmm
      ensures vmm.Valid() && KeptIn(old(vmm.pages), vmm.pages, kept) && kept <= vmm.pages.Keys
      ensures alive ==> Valid() && Foreign(Held(), kept) && Apart(vmm.pages, kept, physical)
    {
      hide Inv, Owned, PhysicalOk, SlotsOk, SlotOk, Foreign, Apart, Separate, HolesAre, Escaping, Wanted, Stands,
           Addressed, Room;
      ghost var pages := vmm.pages;
      alive := true;
      var calls: nat := *;
      while calls > 0 && alive
        invariant vmm.Valid() && KeptIn(pages, vmm.pages, kept) && kept <= vmm.pages.Keys
        invariant alive ==> Valid() && Foreign(Held(), kept) && Apart(vmm.pages, kept, physical)
        decreases calls
      {
        alive := AnyCall(kept);
        calls := calls - 1;
      }
    }

    method AnyCall(kept: set<nat>) returns (alive: bool)
      requires Valid() && kept <= vmm.pages.Keys && Foreign(Held(), kept) && Apart(vmm.pages, kept, physical)
      modifies this`vaPhys, this`mappings, this`blackHoles, this`physical, vmm
      ensures vmm.Valid() && KeptIn(old(vmm.pages), vmm.pages, kept) && kept <= vmm.pages.Keys
      ensures alive ==> Valid() && Foreign(Held(), kept) && Apart(vmm.pages, kept, physical)
    {
      hide Inv, Owned, PhysicalOk, SlotsOk, SlotOk, Foreign, Apart, Separate, HolesAre, Escaping, Wanted, Stands,
           Addressed, Room;
      ghost var pages, was, holes := vmm.pages, mappings, blackHoles;
      PhysicalIn(pages, physical);
      ghost var memories := Memories(pages, physical);
      SlotsIn(pages, base, mappings, vaPhys, blackHoles, memories);
      var choice: nat, n: nat := *, *;
      alive := true;
      if choice == 0 && n <= |physical| && |vaPhys| < MG_PAGES && Room(vmm.pages, base, |vaPhys|) {
        var _ := MapPage(n, kept);
      } else if choice == 1 && n < |vaPhys| && blackHoles[n] != 0 && mappings[n] == None
                && forall q | q in vmm.pages :: vmm.pages[q].address != base + n * MG_PAGE {
        alive := Revive(n);
        ApartMoved(pages, vmm.pages, base + n * MG_PAGE, physical, kept);
        if alive {
          assert Held() == (was + Somes(physical))[n := mappings[n]];
          ForeignRevived(was + Somes(physical), n, mappings[n], kept);
        }
      } else if choice == 2 {
        var candidates: seq<Candidate>, freed: seq<bool> := *, *;
        if |freed| == |candidates| && Separate(candidates, vaPhys, blackHoles) {
          var crashed, escaped;
          ghost var made;
          alive, crashed, made, escaped := Escape(candidates, freed, kept);
          LessForeign(vmm.pages, Held(), physical, kept, escaped.Keys);
        }
      } else {
        var mine := References(mappings + Somes(physical));
        HeldReferences(pages, Held());
        OthersAct(vmm, mine + kept);
        OthersLeaveValid(pages, vmm.pages, base, mappings, vaPhys, blackHoles, physical, kept, mine + kept);
      }
    }

    /**
     The whole life of escaped memory: it escapes, the graph goes on, others go about their
     business, and the graph is destroyed, with scopes open or not.  Whatever failed on the
     way, every reference that went out still maps its address to its memory; if the escape
     succeeded, that is every page of every escaped allocation, and its original memory.
     After a finalisation that failed, destroying the graph is refused.
     */
    method EscapeAndDestroy(candidates: seq<Candidate>, freed: seq<bool>, ghost others: set<nat>)
      returns (ok: bool, crashed: bool, escaped: map<nat, Page>)
      requires Valid() && others <= vmm.pages.Keys && Foreign(Held(), others) && Apart(vmm.pages, others, physical)
      requires NoDuplicates(small) && forall q | q in small :: q in others
      requires |freed| == |candidates| && Separate(candidates, vaPhys, blackHoles)
      modifies this`vaPhys, this`mappings, this`physical, this`blackHoles, vmm
      ensures vmm.Valid() && Kept(escaped, vmm.pages)
      ensures forall r | r in escaped ::
                escaped[r].address in vmm.mapped && vmm.mapped[escaped[r].address] == escaped[r].allocation
      ensures ok ==> forall k | 0 <= k < |candidates| && !freed[k] ::
                Stands(old(Memories(vmm.pages, physical)), old(vaPhys), base, escaped, candidates[k])
      ensures vmm.willing ==> (ok <==> !crashed)
      ensures vmm.willing ==> (crashed <==> exists v | 0 <= v < old(|vaPhys|) ::
                old(mappings)[v] == None && Wanted(Escaping(candidates, freed), old(vaPhys), old(vaPhys)[v]))
    {
      hide Inv, Owned, PhysicalOk, SlotsOk, SlotOk, Foreign, Apart, Stands, Separate, HolesAre, Escaping, Wanted;
      ghost var made := false;
      ok, crashed, made, escaped := Escape(candidates, freed, others);
      if ok {
        var kept := (set q | q in small) + escaped.Keys;
        FewerOthers(vmm.pages, Held(), physical, others + escaped.Keys, kept);
        var alive := LiveOn(kept);
        var open: seq<Candidate>, gone: seq<bool> := *, *;
        if alive && |gone| == |open| && Separate(open, vaPhys, blackHoles) {
          var _, _ := HandOverAndDestroy(open, gone, kept);
        }
      }
      AllMapped(vmm.State(), vmm.outside, escaped);
    }
  }

  /** Nobody has come to an address that a kept reference maps. */
  ghost predicate NoIntruders(pages: map<nat, Page>, pages': map<nat, Page>, kept: set<nat>) {
    forall q, p | q in pages' && p in kept && p in pages && pages[p].address != 0 &&
        pages'[q].address == pages[p].address ::
      q in pages && pages[q].address == pages'[q].address
  }

  lemma {:induction false} DropIntrudesNot(pages: map<nat, Page>, pages': map<nat, Page>, page: nat, kept: set<nat>)
    requires page in pages && Moved(pages, pages', Some(page), pages[page].address) && pages'.Keys <= pages.Keys
    ensures NoIntruders(pages, pages', kept) && (page !in kept ==> KeptIn(pages, pages', kept))
  {
  }

  lemma {:induction false} MapIntrudesNot(pages: map<nat, Page>, pages': map<nat, Page>, x: nat, kept: set<nat>)
    requires Moved(pages, pages', None, x) && forall q | q in pages :: pages[q].address != x
    ensures NoIntruders(pages, pages', kept) && KeptIn(pages, pages', kept)
  {
  }

  /** Calls of other holders, in any number: none gives up a reference in `kept`. */
  method OthersAct(vmm: Vmm, kept: set<nat>)
    requires vmm.Valid() && kept <= vmm.pages.Keys
    modifies vmm
    ensures vmm.Valid() && vmm.next >= old(vmm.next) && KeptIn(old(vmm.pages), vmm.pages, kept)
    ensures NoIntruders(old(vmm.pages), vmm.pages, kept)
  {
    hide Inv, Moved;
    var calls: nat := *;
    while calls > 0
      invariant vmm.Valid() && vmm.next >= old(vmm.next) && kept <= vmm.pages.Keys
      invariant KeptIn(old(vmm.pages), vmm.pages, kept) && NoIntruders(old(vmm.pages), vmm.pages, kept)
    {
      var choice: nat, page: nat, x: nat := *, *, *;
      ghost var pages := vmm.pages;
      if choice == 0 {
        var _, _ := vmm.PageAlloc(x);
      } else if page in vmm.pages {
        if choice == 1 {
          PageCreated(vmm.State(), vmm.outside, page);
          var _, _ := vmm.PageRef(page);
        } else if choice == 2 && page !in kept {
          var _ := DropOne(vmm, page);
          DropIntrudesNot(pages, vmm.pages, page, kept);
        } else if x != 0 && forall q | q in vmm.pages :: vmm.pages[q].address != x {
          var _, _ := MapOne(vmm, x, page);
          MapIntrudesNot(pages, vmm.pages, x, kept);
        }
      }
      calls := calls - 1;
    }
  }

  // ---------------------------------------------------------------- what goes wrong

  lemma {:induction false} FirstEscape(vaPhys: seq<nat>)
    requires vaPhys == [0, 0, 1]
    ensures Escaping([Candidate(0, 1)], [false]) == [Candidate(0, 1)]
    ensures Wanted([Candidate(0, 1)], vaPhys, 0) && Within([Candidate(0, 1)], 0)
    ensures !Within([Candidate(0, 1)], 1) && !Within([Candidate(0, 1)], 2)
  {
    assert Covers([Candidate(0, 1)][0], 0) && vaPhys[0] == 0;
    assert Candidate(0, 1) in [Candidate(0, 1)];
  }

  lemma {:induction false} SecondEscape(vaPhys: seq<nat>)
    requires vaPhys == [0, 0, 1]
    ensures Escaping([Candidate(1, 2)], [false]) == [Candidate(1, 2)] && Wanted([Candidate(1, 2)], vaPhys, 0)
  {
    assert Covers([Candidate(1, 2)][0], 1) && vaPhys[1] == 0;
  }

  /** Three virtual pages on two physical ones, as a wider window after a free leaves them. */
  method AliasedPages(vmm: Vmm, base: nat) returns (ok: bool, g: GraphPages)
    requires vmm.Valid() && base > 0 && Room(vmm.pages, base, 0)
    modifies vmm
    ensures g.vmm == vmm && fresh(g) && old(vmm.pages).Keys <= vmm.pages.Keys
    ensures vmm.willing ==> ok
    ensures ok ==> g.Valid() && g.vaPhys == [0, 0, 1] && g.blackHoles == [0, 0, 0]
    ensures ok ==> |g.mappings| == 3 && forall v | 0 <= v < 3 :: g.mappings[v].Some?
    ensures ok ==> Foreign(g.Held(), old(vmm.pages).Keys) && Apart(vmm.pages, old(vmm.pages).Keys, g.physical)
  {
    hide Inv, Owned, PhysicalOk, SlotsOk, SlotOk, Foreign, Apart, Room;
    ghost var others := vmm.pages.Keys;
    g := new GraphPages(vmm, base);
    NothingHeld(vmm.pages, g.Held(), g.physical, others);
    ok := g.MapPage(0, others);
    if !ok { return; }
    ok := g.MapPage(0, others);
    if !ok { return; }
    ok := g.MapPage(1, others);
  }

  /** The first alias escapes, and stays held. */
  method FirstAliasEscapes(g: GraphPages, ghost others: set<nat>) returns (ok: bool, escaped: map<nat, Page>)
    requires g.Valid() && g.vaPhys == [0, 0, 1] && g.blackHoles == [0, 0, 0]
    requires |g.mappings| == 3 && forall v | 0 <= v < 3 :: g.mappings[v].Some?
    requires others <= g.vmm.pages.Keys && Foreign(g.Held(), others) && Apart(g.vmm.pages, others, g.physical)
    modifies g`mappings, g`physical, g`blackHoles, g.vmm
    ensures others + escaped.Keys <= g.vmm.pages.Keys
    ensures g.vmm.willing ==> ok
    ensures ok ==> g.Valid() && |g.mappings| == |g.blackHoles| == 3 && g.mappings[0] == None
    ensures ok ==> g.blackHoles[1] == 0 && g.blackHoles[2] == 0
    ensures ok ==> Foreign(g.Held(), others + escaped.Keys) && Apart(g.vmm.pages, others + escaped.Keys, g.physical)
  {
    hide Inv, Owned, PhysicalOk, SlotsOk, SlotOk, Foreign, Apart, Separate, HolesAre, Escaping, Wanted, Within, Stands,
         Addressed;
    FirstEscape(g.vaPhys);
    OneFits(Candidate(0, 1), g.vaPhys, g.blackHoles);
    ghost var holes, made := g.blackHoles, false;
    var crashed;
    ok, crashed, made, escaped := g.Escape([Candidate(0, 1)], [false], others);
    if ok {
      PhysicalIn(g.vmm.pages, g.physical);
      SlotsIn(g.vmm.pages, g.base, g.mappings, g.vaPhys, g.blackHoles, Memories(g.vmm.pages, g.physical));
      HolesAfter(holes, g.blackHoles);
    }
  }

  /**
   Two virtual pages alias one physical page, and both their allocations escape, the second
   while the first is held: the finalisation crashes as soon as it has its replacements.
   */
  method SecondAliasCrashes(vmm: Vmm, base: nat) returns (ready: bool, crashed: bool, ghost made: bool)
    requires vmm.Valid() && base > 0 && Room(vmm.pages, base, 0)
    modifies vmm
    ensures ready && made ==> crashed
    ensures vmm.willing ==> ready && crashed
  {
    hide Inv, Owned, PhysicalOk, SlotsOk, SlotOk, Foreign, Apart, Room, Separate, HolesAre, Escaping, Wanted, Stands,
         Addressed;
    ghost var others := vmm.pages.Keys;
    crashed, made := false, false;
    var g, escaped;
    ready, g := AliasedPages(vmm, base);
    if !ready { return; }
    ready, escaped := FirstAliasEscapes(g, others);
    if !ready { return; }
    SecondEscape(g.vaPhys);
    OneFits(Candidate(1, 2), g.vaPhys, g.blackHoles);
    ghost var was := g.mappings;
    var ok, more;
    ok, crashed, made, more := g.Escape([Candidate(1, 2)], [false], others + escaped.Keys);
    assert made ==> was[0] == None && Wanted([Candidate(1, 2)], g.vaPhys, g.vaPhys[0]);
  }

  lemma {:induction false} NothingHeld(pages: map<nat, Page>, held: seq<Option<nat>>, physical: seq<nat>,
                                       others: set<nat>)
    requires held == [] && physical == []
    ensures Foreign(held, others) && Apart(pages, others, physical)
  {
  }

  lemma {:induction false} OneFits(c: Candidate, vaPhys: seq<nat>, holes: seq<nat>)
    requires c.first + c.count <= |vaPhys| == |holes| && forall v | c.first <= v < c.first + c.count :: holes[v] == 0
    ensures Separate([c], vaPhys, holes)
  {
  }

  lemma {:induction false} HolesAfter(was: seq<nat>, holes: seq<nat>)
    requires was == [0, 0, 0] && HolesAre(was, holes, [Candidate(0, 1)])
    ensures |holes| == 3 && holes[0] != 0 && holes[1] == 0 && holes[2] == 0
  {
    FirstEscape([0, 0, 1]);
    assert was[0] == 0 && was[1] == 0 && was[2] == 0;
  }
}
