/**
 Where a new allocation goes: the window search of the large heap and the mapping
 of new virtual pages onto physical ones.
 */
module GraphSearch {
  import opened Basics
  import opened GraphTables
  import opened GraphAlloc

  datatype Interval = Interval(offset: nat, bytes: nat)

  /**
   Memory the graph may not hand out because an allocation escaped from an earlier
   scope and is still alive: virtual pages, physical pages, spans of the small heap.
   */
  datatype Rogues = Rogues(vas: set<nat>, phys: set<nat>, small: seq<Interval>)

  const NO_ROGUES := Rogues({}, {}, [])

  predicate Available(vaPhys: seq<nat>, live: set<nat>, rogues: Rogues, i: nat)
    requires i < |vaPhys|
  {
    i !in rogues.vas && vaPhys[i] !in live && vaPhys[i] !in rogues.phys
  }

  /** A window the search may return: every page available, no two pages on one physical page. */
  ghost predicate Usable(vaPhys: seq<nat>, live: set<nat>, rogues: Rogues, va: nat, pages: nat) {
    && va + pages <= |vaPhys|
    && DistinctWindow(vaPhys, va, pages)
    && forall i | va <= i < va + pages :: Available(vaPhys, live, rogues, i)
  }

  ghost predicate LowestUsable(vaPhys: seq<nat>, live: set<nat>, rogues: Rogues, va: nat, pages: nat) {
    && Usable(vaPhys, live, rogues, va, pages)
    && forall w: nat | w < va :: !Usable(vaPhys, live, rogues, w, pages)
  }

  ghost predicate NoneUsable(vaPhys: seq<nat>, live: set<nat>, rogues: Rogues, pages: nat) {
    forall w: nat :: !Usable(vaPhys, live, rogues, w, pages)
  }

  lemma {:induction false} UsableIsFree(vaPhys: seq<nat>, live: set<nat>, rogues: Rogues, va: nat, pages: nat)
    requires Usable(vaPhys, live, rogues, va, pages)
    ensures FreeWindow(vaPhys, live, va, pages)
    ensures PhysOf(vaPhys, va, pages) !! rogues.phys
  {
    forall i | va <= i < va + pages
      ensures vaPhys[i] !in live && vaPhys[i] !in rogues.phys
    {
      assert Available(vaPhys, live, rogues, i);
    }
    PhysAvoid(vaPhys, va, pages, live);
    PhysAvoid(vaPhys, va, pages, rogues.phys);
  }

  lemma {:induction false} PhysAvoid(vaPhys: seq<nat>, va: nat, pages: nat, avoid: set<nat>)
    requires va + pages <= |vaPhys| && forall i | va <= i < va + pages :: vaPhys[i] !in avoid
    ensures PhysOf(vaPhys, va, pages) !! avoid
  {
    forall p | p in PhysOf(vaPhys, va, pages)
      ensures p !in avoid
    {
      var i :| va <= i < va + pages && vaPhys[i] == p;
    }
  }

  /** A window that holds an unavailable page, or two pages on one physical page, is not usable. */
  lemma {:induction false} BlockedWindow(vaPhys: seq<nat>, live: set<nat>, rogues: Rogues, w: nat, pages: nat, i: nat)
    requires w <= i < w + pages && i < |vaPhys|
    requires !Available(vaPhys, live, rogues, i) || exists k :: w <= k < i && vaPhys[k] == vaPhys[i]
    ensures !Usable(vaPhys, live, rogues, w, pages)
  {
    var available := Available(vaPhys, live, rogues, i);
    assert Usable(vaPhys, live, rogues, w, pages) ==> available;
  }

  // ---------------------------------------------------------------- mapping new pages

  /** The lowest physical page that is not busy; `physCount` stands for a page yet to be created. */
  function FirstFree(busy: set<nat>, from: nat, physCount: nat): (p: nat)
    requires from <= physCount
    ensures from <= p <= physCount
    ensures p < physCount ==> p !in busy
    ensures forall q | from <= q < p :: q in busy
    decreases physCount - from
  {
    if from < physCount && from in busy then FirstFree(busy, from + 1, physCount) else from
  }

  datatype PageMap = PageMap(vaPhys: seq<nat>, physCount: nat)

  /** Map `pages` new virtual pages at the end, each onto the lowest page neither live nor taken before it. */
  function MapNew(m: PageMap, busy: set<nat>, pages: nat): PageMap
    decreases pages
  {
    if pages == 0 then m
    else
      var p := FirstFree(busy, 0, m.physCount);
      MapNew(PageMap(m.vaPhys + [p], Max(m.physCount, p + 1)), busy + {p}, pages - 1)
  }

  ghost predicate PageMapOk(m: PageMap) {
    (forall i | 0 <= i < |m.vaPhys| :: m.vaPhys[i] < m.physCount) && m.physCount <= |m.vaPhys|
  }

  /** The new pages are new to `busy` and pairwise distinct, and never more pages exist than are mapped. */
  lemma {:induction false} MapNewOk(m: PageMap, busy: set<nat>, pages: nat)
    requires PageMapOk(m) && forall p | p in busy :: p < m.physCount
    ensures var m' := MapNew(m, busy, pages);
            && PageMapOk(m')
            && |m'.vaPhys| == |m.vaPhys| + pages
            && m.vaPhys <= m'.vaPhys
            && m.physCount <= m'.physCount
    ensures var s := MapNew(m, busy, pages).vaPhys;
            && (forall i | |m.vaPhys| <= i < |s| :: s[i] !in busy)
            && DistinctWindow(s, |m.vaPhys|, pages)
    decreases pages
  {
    if pages > 0 {
      var p := FirstFree(busy, 0, m.physCount);
      var m1 := PageMap(m.vaPhys + [p], Max(m.physCount, p + 1));
      MapNewOk(m1, busy + {p}, pages - 1);
      var s := MapNew(m, busy, pages).vaPhys;
      assert s[|m.vaPhys|] == m1.vaPhys[|m.vaPhys|] == p;
    }
  }

  /** How aliases come about: a freed page is mapped again under a window that found no room below. */
  lemma {:induction false} AliasesArise()
    ensures MapNew(PageMap([0], 1), {}, 2) == PageMap([0, 0, 1], 2)
  {
    assert MapNew(PageMap([0, 0], 1), {0}, 1) == MapNew(PageMap([0, 0, 1], 2), {0, 1}, 0);
  }

  /** Where a large allocation goes, and the page map afterwards. */
  ghost predicate LargePlan(m: PageMap, live: set<nat>, rogues: Rogues, pages: nat, va: nat, m': PageMap) {
    if exists w: nat :: Usable(m.vaPhys, live, rogues, w, pages) then
      LowestUsable(m.vaPhys, live, rogues, va, pages) && m' == m
    else
      va == |m.vaPhys| && va + pages <= MG_PAGES && m' == MapNew(m, live + rogues.phys, pages)
  }

  /** Whatever the plan, the window is free and holds no rogue page. */
  lemma {:induction false} LargePlanFree(m: PageMap, live: set<nat>, rogues: Rogues, pages: nat, va: nat, m': PageMap)
    requires PageMapOk(m) && LargePlan(m, live, rogues, pages, va, m')
    requires forall p | p in live + rogues.phys :: p < m.physCount
    ensures PageMapOk(m') && m.vaPhys <= m'.vaPhys && va + pages <= |m'.vaPhys|
    ensures FreeWindow(m'.vaPhys, live, va, pages)
    ensures PhysOf(m'.vaPhys, va, pages) !! rogues.phys
    ensures |m'.vaPhys| <= if |m.vaPhys| <= MG_PAGES then MG_PAGES else |m.vaPhys|
  {
    if exists w: nat :: Usable(m.vaPhys, live, rogues, w, pages) {
      UsableIsFree(m.vaPhys, live, rogues, va, pages);
    } else {
      MapNewOk(m, live + rogues.phys, pages);
      PhysAvoid(m'.vaPhys, va, pages, live);
      PhysAvoid(m'.vaPhys, va, pages, rogues.phys);
    }
  }
}
