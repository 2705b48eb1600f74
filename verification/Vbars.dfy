/**
 The VBAR offloader: `src/model-vbar.c`.  VBARs form a priority list; loading pages
 of one may evict pages of any, from the lowest priority up, top page first.
 */
module Vbars {
  import opened Basics
  import opened VbarPages

  /** The least number of pages with room for `size` bytes. */
  function PagesUp(size: nat): (n: nat)
    ensures size <= n * VBAR_PAGE_SIZE < size + VBAR_PAGE_SIZE
  {
    (size + VBAR_PAGE_SIZE - 1) / VBAR_PAGE_SIZE
  }

  /** The page with byte `x`. */
  function PageNr(x: nat): (i: nat)
    ensures i * VBAR_PAGE_SIZE <= x < (i + 1) * VBAR_PAGE_SIZE
  {
    x / VBAR_PAGE_SIZE
  }

  /** A byte of the range lies on one of its pages. */
  lemma {:induction false} ByteInPages(offset: nat, size: nat, x: nat)
    requires offset <= x < offset + size
    ensures PageNr(offset) <= PageNr(x) < PagesUp(offset + size)
  {
  }

  // ---------------------------------------------------------------- the list as values

  function SumResidents(vs: seq<Vbar>): nat {
    if vs == [] then 0 else SumResidents(vs[..|vs| - 1]) + Residents(vs[|vs| - 1].pages)
  }

  function EvictableOf(v: Vbar): nat {
    if v.watermark <= |v.pages| then EvictableIn(v.pages, v.limit, v.watermark) else 0
  }

  /** Pages that eviction may take: resident, unpinned, between limit and watermark. */
  function SumEvictable(vs: seq<Vbar>): nat {
    if vs == [] then 0 else SumEvictable(vs[..|vs| - 1]) + EvictableOf(vs[|vs| - 1])
  }

  /** An unpinned resident page between limit and watermark of any VBAR is one of those counted. */
  lemma {:induction false} EvictableCounted(vs: seq<Vbar>, k: nat, i: nat)
    requires k < |vs| && vs[k].limit <= i < vs[k].watermark <= |vs[k].pages|
    requires vs[k].pages[i].resident && vs[k].pages[i].pins == 0
    ensures SumEvictable(vs) >= 1
  {
    if k < |vs| - 1 {
      EvictableCounted(vs[..|vs| - 1], k, i);
    } else {
      EvictableSet(vs[k].pages, vs[k].limit, vs[k].watermark);
      assert i in EvictablePages(vs[k].pages, vs[k].limit, vs[k].watermark);
    }
  }

  lemma {:induction false} SumsUpdate(vs: seq<Vbar>, k: nat, v: Vbar)
    requires k < |vs|
    ensures SumResidents(vs[k := v]) == SumResidents(vs) - Residents(vs[k].pages) + Residents(v.pages)
    ensures SumEvictable(vs[k := v]) == SumEvictable(vs) - EvictableOf(vs[k]) + EvictableOf(v)
    decreases |vs|
  {
    var n := |vs| - 1;
    if k < n {
      SumsUpdate(vs[..n], k, v);
      assert vs[k := v][..n] == vs[..n][k := v];
    } else {
      assert vs[k := v][..n] == vs[..n];
    }
  }

  /** A VBAR was lowered no further than its limit. */
  ghost predicate LoweredTo(v: Vbar, v': Vbar) {
    && v'.watermark <= v.watermark <= |v.pages|
    && v' == Lowered(v, v'.watermark)
    && (v'.watermark < v.watermark ==> v.limit <= v'.watermark)
  }

  /** Eviction over the list: a VBAR is touched only when all before it are down to their limit. */
  ghost predicate Reaped(vs: seq<Vbar>, vs': seq<Vbar>) {
    && |vs'| == |vs|
    && (forall k | 0 <= k < |vs| :: LoweredTo(vs[k], vs'[k]))
    && forall j, k | 0 <= j < k < |vs| && vs'[k] != vs[k] :: vs'[j].watermark <= vs'[j].limit
  }

  /** Eviction ended with VBAR `i`, at the page it took last; those above were not touched. */
  ghost predicate StopsAt(vs: seq<Vbar>, vs': seq<Vbar>, i: nat) {
    && i < |vs| == |vs'| && vs'[i].watermark < vs[i].watermark <= |vs[i].pages|
    && Evictable(vs[i].pages[vs'[i].watermark])
    && forall k | i < k < |vs| :: vs'[k] == vs[k]
  }

  ghost predicate AllOk(vs: seq<Vbar>) {
    forall k | 0 <= k < |vs| :: VbarOk(vs[k])
  }

  /** Page by page, nothing but loading and evicting happened, and pinned pages were left alone. */
  ghost predicate AllShuffled(vs: seq<Vbar>, vs': seq<Vbar>) {
    && |vs'| == |vs|
    && forall k | 0 <= k < |vs| :: VbarShuffled(vs[k], vs'[k])
  }

  ghost predicate VbarShuffled(v: Vbar, v': Vbar) {
    && |v'.pages| == |v.pages| && v'.limit == v.limit
    && forall i | 0 <= i < |v.pages| :: Shuffled(v.pages[i], v'.pages[i])
  }

  lemma {:induction false} ReapedOk(vs: seq<Vbar>, vs': seq<Vbar>)
    requires AllOk(vs) && Reaped(vs, vs')
    ensures AllOk(vs') && AllShuffled(vs, vs')
  {
    forall k | 0 <= k < |vs|
      ensures VbarOk(vs'[k]) && VbarShuffled(vs[k], vs'[k])
    {
      assert LoweredTo(vs[k], vs'[k]);
      LoweredOk(vs[k], vs'[k].watermark);
    }
  }

  lemma {:induction false} ShuffledTransitive(a: seq<Vbar>, b: seq<Vbar>, c: seq<Vbar>)
    requires AllShuffled(a, b) && AllShuffled(b, c)
    ensures AllShuffled(a, c)
  {
    forall k | 0 <= k < |a|
      ensures VbarShuffled(a[k], c[k])
    {
      assert VbarShuffled(a[k], b[k]) && VbarShuffled(b[k], c[k]);
      forall i | 0 <= i < |a[k].pages|
        ensures Shuffled(a[k].pages[i], c[k].pages[i])
      {
        assert Shuffled(a[k].pages[i], b[k].pages[i]) && Shuffled(b[k].pages[i], c[k].pages[i]);
      }
    }
  }

  lemma {:induction false} ShuffledRefl(vs: seq<Vbar>)
    ensures AllShuffled(vs, vs)
  {
  }

  lemma {:induction false} EvictableLowered(v: Vbar, w: nat)
    requires w <= v.watermark <= |v.pages| && (w < v.watermark ==> v.limit <= w)
    ensures EvictableOf(Lowered(v, w)) + EvictableIn(v.pages, w, v.watermark) == EvictableOf(v)
  {
    if v.limit <= w {
      EvictableSplit(v.pages, v.limit, w, v.watermark);
      EvictableSame(v.pages, Lowered(v, w).pages, v.limit, w);
    } else {
      LoweredSame(v);
    }
  }

  /** With every VBAR at its limit there is nothing left to evict. */
  lemma {:induction false} NothingLeft(vs: seq<Vbar>)
    requires forall k | 0 <= k < |vs| :: vs[k].watermark <= vs[k].limit
    ensures SumEvictable(vs) == 0
    decreases |vs|
  {
    if vs != [] { NothingLeft(vs[..|vs| - 1]); }
  }

  class ModelVbar {
    var pages: seq<Page>
    var watermark: nat
    var limit: nat
    var residentCount: int

    ghost function Value(): Vbar
      reads this
    {
      Vbar(pages, watermark, limit, residentCount)
    }

    constructor (nrPages: nat)
      ensures Value() == Vbar(seq(nrPages, _ => Page(false, 0, 0, 0, 0, 0)), nrPages, 0, 0)
    {
      pages := seq(nrPages, _ => Page(false, 0, 0, 0, 0, 0));
      watermark, limit, residentCount := nrPages, 0, 0;
    }
  }

  /** The values of a list of VBARs. */
  ghost function ValuesOf(list: seq<ModelVbar>): (vs: seq<Vbar>)
    reads list
    ensures |vs| == |list|
    ensures forall k | 0 <= k < |list| :: vs[k] == list[k].Value()
  {
    if list == [] then [] else ValuesOf(list[..|list| - 1]) + [list[|list| - 1].Value()]
  }

  ghost predicate Distinct(list: seq<ModelVbar>) {
    forall j, k | 0 <= j < k < |list| :: list[j] != list[k]
  }

  /** With one VBAR changed, one value is. */
  lemma {:induction false} ValuesAre(list: seq<ModelVbar>, was: seq<Vbar>, k: nat)
    requires |was| == |list| && k < |list|
    requires forall j | 0 <= j < |list| && j != k :: list[j].Value() == was[j]
    ensures ValuesOf(list) == was[k := list[k].Value()]
  {
  }

  /** One device: the priority list, lowest first, and the accounting of its memory. */
  class Device {
    var list: seq<ModelVbar>
    var usage: int
    const capacity: int
    const headroom: int

    /** Memory in use outside the VBARs. */
    ghost var outside: int

    ghost function Values(): (vs: seq<Vbar>)
      reads this, list
    {
      ValuesOf(list)
    }

    ghost predicate Valid()
      reads this, list
    {
      && Distinct(list)
      && AllOk(Values())
      && usage == outside + SumResidents(Values()) * VBAR_PAGE_SIZE
    }

    /** `mod1`: free and unpin one page, as asked and as far as pins allow. */
    method Mod1(v: ModelVbar, i: nat, doFree: bool, doUnpin: bool) returns (freed: bool)
      requires i < |v.pages|
      modifies v`pages, v`residentCount, this`usage
      ensures freed == (doFree && old(v.pages[i]).resident && (doUnpin || old(v.pages[i]).pins == 0))
      ensures var p := if freed then Evicted(old(v.pages[i])) else old(v.pages[i]);
              v.pages == old(v.pages)[i := if doUnpin then p.(pins := 0) else p]
      ensures usage == old(usage) - (if freed then VBAR_PAGE_SIZE else 0)
      ensures v.residentCount == old(v.residentCount) - (if freed then 1 else 0)
    {
      var page := v.pages[i];
      freed := doFree && page.resident && (doUnpin || page.pins == 0);
      if freed {
        usage := usage - VBAR_PAGE_SIZE;
        page := Evicted(page);
        v.residentCount := v.residentCount - 1;
      }
      if doUnpin {
        page := page.(pins := 0);
      }
      v.pages := v.pages[i := page];
    }

    /** Lower one VBAR towards its limit until `needed` pages are free. */
    method Reap(v: ModelVbar, needed: nat) returns (left: nat)
      requires v.watermark <= |v.pages|
      modifies v`pages, v`residentCount, v`watermark, this`usage
      ensures LoweredTo(old(v.Value()), v.Value())
      ensures left + EvictableIn(old(v.pages), v.watermark, old(v.watermark)) == needed
      ensures usage == old(usage) - (needed - left) * VBAR_PAGE_SIZE
      ensures left > 0 ==> v.watermark <= v.limit
      ensures left == 0 && needed > 0 ==> v.watermark < old(v.watermark) && Evictable(old(v.pages)[v.watermark])
    {
      left := needed;
      ghost var was := v.Value();
      LoweredSame(was);
      while left > 0 && v.watermark > v.limit
        invariant LoweredTo(was, v.Value())
        invariant left + EvictableIn(was.pages, v.watermark, was.watermark) == needed
        invariant usage == old(usage) - (needed - left) * VBAR_PAGE_SIZE
        invariant left == 0 && v.watermark < was.watermark ==> Evictable(was.pages[v.watermark])
        decreases v.watermark
      {
        LoweredNext(was, v.watermark);
        EvictableSplit(was.pages, v.watermark - 1, v.watermark, was.watermark);
        var freed := Mod1(v, v.watermark - 1, true, false);
        if freed {
          left := left - 1;
        }
        v.watermark := v.watermark - 1;
      }
    }

    /** One round of the walk up the list. */
    method ReapAt(i: nat, needed: nat, ghost was: seq<Vbar>) returns (left: nat)
      requires Valid() && i < |list| == |was|
      requires AllOk(was) && Reaped(was, Values()) && Values()[i] == was[i]
      requires forall k | 0 <= k < i :: Values()[k].watermark <= Values()[k].limit
      requires forall k | i <= k < |list| :: Values()[k] == was[k]
      modifies this`usage, list
      ensures Valid() && Reaped(was, Values()) && left <= needed
      ensures forall k | i < k < |list| :: Values()[k] == was[k]
      ensures left > 0 ==> forall k | 0 <= k <= i :: Values()[k].watermark <= Values()[k].limit
      ensures usage == old(usage) - (needed - left) * VBAR_PAGE_SIZE
      ensures SumEvictable(Values()) == SumEvictable(old(Values())) - (needed - left)
      ensures left == 0 && needed > 0 ==> StopsAt(was, Values(), i)
    {
      hide AllOk, VbarOk, LoweredTo, SumResidents, SumEvictable, Residents, EvictableOf, Reaped, ValuesOf;
      ghost var before := Values();
      OkAt(before, i);
      left := Reap(list[i], needed);
      ghost var v := list[i].Value();
      ValuesAre(list, before, i);
      ReapStep(was, before, i, v);
      SumsUpdate(before, i, v);
      LoweredFacts(before[i], v);
    }

    /**
     `vbars_free`.  The pages still missing afterwards are those no eviction could
     supply: exactly the smaller of pages needed and pages evictable are freed, and the
     walk goes no further than the page it needed last.
     */
    method VbarsFree(size: int) returns (left: nat)
      requires Valid()
      modifies this`usage, list
      ensures Valid()
      ensures Reaped(old(Values()), Values())
      ensures var needed := if size <= 0 then 0 else PagesUp(size);
              var evictable := old(SumEvictable(Values()));
              && left == (if needed < evictable then 0 else needed - evictable)
              && usage == old(usage) - (needed - left) * VBAR_PAGE_SIZE
              && SumEvictable(Values()) == evictable - (needed - left)
              && (left == 0 && needed > 0 ==> exists i :: StopsAt(old(Values()), Values(), i))
      ensures left > 0 ==> AtLimits(Values())
      ensures size <= 0 ==> Values() == old(Values())
    {
      hide AllOk, VbarOk, Reaped, SumResidents, SumEvictable, StopsAt;
      ghost var was := Values();
      ReapedRefl(was);
      if size <= 0 {
        return 0;
      }
      left := PagesUp(size);
      var i := 0;
      while left > 0 && i < |list|
        invariant i <= |list|
        invariant Valid() && Reaped(was, Values()) && |was| == |list|
        invariant forall k | i <= k < |list| :: Values()[k] == was[k]
        invariant left > 0 ==> forall k | 0 <= k < i :: Values()[k].watermark <= Values()[k].limit
        invariant left <= PagesUp(size)
        invariant usage == old(usage) - (PagesUp(size) - left) * VBAR_PAGE_SIZE
        invariant SumEvictable(Values()) == SumEvictable(was) - (PagesUp(size) - left)
        invariant left == 0 && PagesUp(size) > 0 ==> exists k :: StopsAt(was, Values(), k)
      {
        left := ReapAt(i, left, was);
        i := i + 1;
      }
      if left > 0 { NothingLeft(Values()); }
    }

    // -------------------------------------------------------------- making room for one VBAR

    /** First absent page at or after `cursor`, as far as the watermark. */
    method MoveCursorToAbsent(m: ModelVbar, cursor: nat, ghost bound: nat) returns (c: nat)
      requires m.watermark <= |m.pages| && bound <= m.watermark
      ensures cursor <= c && (c < m.watermark ==> !m.pages[c].resident)
      ensures c <= m.watermark || c == cursor
      ensures forall i | cursor <= i < c :: m.pages[i].resident
      ensures AbsentBelow(m.pages, Min(c, bound)) == AbsentBelow(m.pages, Min(cursor, bound))
    {
      c := cursor;
      while c < m.watermark && m.pages[c].resident
        invariant cursor <= c && (c <= m.watermark || c == cursor)
        invariant forall i | cursor <= i < c :: m.pages[i].resident
        invariant AbsentBelow(m.pages, Min(c, bound)) == AbsentBelow(m.pages, Min(cursor, bound))
      {
        c := c + 1;
      }
    }

    /** Give surplus to absent pages below target and watermark, one page size each. */
    method SpendSurplusOnCursor(m: ModelVbar, target: nat, cursor: nat, surplus: int, ghost spent: nat,
                                ghost bound: nat)
      returns (c: nat, rest: int, ghost spent': nat)
      requires m.watermark <= |m.pages| && bound <= m.watermark
      requires CursorOk(m.Value(), cursor, spent, bound)
      ensures CursorOk(m.Value(), c, spent', bound)
      ensures spent <= spent' && rest == surplus - (spent' - spent) * VBAR_PAGE_SIZE
      ensures rest >= VBAR_PAGE_SIZE ==> c >= target || c >= m.watermark
      ensures surplus >= 0 ==> rest >= 0
      ensures surplus < 0 ==> c == cursor && rest == surplus
      ensures surplus >= VBAR_PAGE_SIZE && cursor < target && cursor < m.watermark ==> spent' > spent
      ensures forall i | cursor <= i < c && target <= i < |m.pages| :: m.pages[i].resident
      ensures bound == m.watermark ==>
                spent' - spent == AbsentBelow(m.pages, Min(c, bound)) - AbsentBelow(m.pages, Min(cursor, bound))
    {
      c, rest, spent' := cursor, surplus, spent;
      while rest >= VBAR_PAGE_SIZE && c < target && c < m.watermark
        invariant CursorOk(m.Value(), c, spent', bound)
        invariant spent <= spent' && rest == surplus - (spent' - spent) * VBAR_PAGE_SIZE
        invariant surplus >= 0 ==> rest >= 0
        invariant surplus < 0 ==> c == cursor && rest == surplus
        invariant spent' > spent || (c == cursor && rest == surplus)
        invariant cursor <= c && forall i | cursor <= i < c && target <= i < |m.pages| :: m.pages[i].resident
        invariant bound == m.watermark ==>
                    spent' - spent == AbsentBelow(m.pages, Min(c, bound)) - AbsentBelow(m.pages, Min(cursor, bound))
        decreases m.watermark - c
      {
        rest := rest - VBAR_PAGE_SIZE;
        spent' := spent' + 1;
        c := MoveCursorToAbsent(m, c + 1, bound);
      }
    }

    /** Whether `vbars_free_for_vbar` still has something to do. */
    predicate Wants(m: ModelVbar, target: nat, cursor: nat, surplus: int)
      reads m
    {
      (cursor < target && cursor < m.watermark) || surplus < 0
    }

    /** A page's worth of surplus is not kept while the cursor still wants one. */
    predicate Spent(m: ModelVbar, target: nat, cursor: nat, surplus: int)
      reads m
    {
      cursor < target && cursor < m.watermark ==> surplus < VBAR_PAGE_SIZE
    }

    /** Take the page under the watermark of `v` and hand its room to the cursor. */
    method EvictTop(v: ModelVbar, m: ModelVbar, target: nat, cursor: nat, surplus: int, ghost spent: nat)
      returns (c: nat, rest: int, ghost spent': nat)
      requires 0 < v.watermark <= |v.pages| && m.watermark <= |m.pages|
      requires CursorOk(m.Value(), cursor, spent, m.watermark)
      requires Spent(m, target, cursor, surplus) && Wants(m, target, cursor, surplus)
      modifies v`pages, v`residentCount, v`watermark, this`usage
      ensures v.Value() == FreePage(old(v.Value()), old(v.watermark) - 1).(watermark := old(v.watermark) - 1)
      ensures CursorOk(m.Value(), c, spent', m.watermark) && spent <= spent'
      ensures usage == old(usage) - (if Evictable(old(v.pages)[old(v.watermark) - 1]) then VBAR_PAGE_SIZE else 0)
      ensures rest + usage == surplus + old(usage) - (spent' - spent) * VBAR_PAGE_SIZE
      ensures Spent(m, target, c, rest) && rest < VBAR_PAGE_SIZE
    {
      c, rest, spent' := cursor, surplus, spent;
      ghost var before := m.Value();
      ghost var bound := if v == m then m.watermark - 1 else m.watermark;
      CursorBound(before, c, spent', bound);
      var freed := Mod1(v, v.watermark - 1, true, false);
      CursorEvict(before, m.Value(), c, spent', bound);
      if freed {
        rest := rest + VBAR_PAGE_SIZE;
        c, rest, spent' := SpendSurplusOnCursor(m, target, c, rest, spent', bound);
      }
      v.watermark := v.watermark - 1;
    }

    /** Lower one VBAR towards its limit while room for `m` is still wanted; it may be `m` itself. */
    method ReapFor(v: ModelVbar, m: ModelVbar, target: nat, cursor: nat, surplus: int, ghost spent: nat)
      returns (c: nat, rest: int, ghost spent': nat)
      requires v.watermark <= |v.pages| && m.watermark <= |m.pages|
      requires CursorOk(m.Value(), cursor, spent, m.watermark) && Spent(m, target, cursor, surplus)
      modifies v`pages, v`residentCount, v`watermark, this`usage
      ensures LoweredTo(old(v.Value()), v.Value())
      ensures CursorOk(m.Value(), c, spent', m.watermark) && spent <= spent'
      ensures rest + usage == surplus + old(usage) - (spent' - spent) * VBAR_PAGE_SIZE
      ensures usage == old(usage) - EvictableIn(old(v.pages), v.watermark, old(v.watermark)) * VBAR_PAGE_SIZE
      ensures Wants(m, target, c, rest) ==> v.watermark <= v.limit
      ensures Spent(m, target, c, rest) && ((usage == old(usage) && rest == surplus) || rest < VBAR_PAGE_SIZE)
    {
      hide CursorOk;
      c, rest, spent' := cursor, surplus, spent;
      ghost var was := v.Value();
      LoweredSame(was);
      while Wants(m, target, c, rest) && v.watermark > v.limit
        invariant LoweredTo(was, v.Value()) && m.watermark <= |m.pages|
        invariant Spent(m, target, c, rest) && ((usage == old(usage) && rest == surplus) || rest < VBAR_PAGE_SIZE)
        invariant CursorOk(m.Value(), c, spent', m.watermark) && spent <= spent'
        invariant rest + usage == surplus + old(usage) - (spent' - spent) * VBAR_PAGE_SIZE
        invariant usage == old(usage) - EvictableIn(was.pages, v.watermark, was.watermark) * VBAR_PAGE_SIZE
        decreases v.watermark
      {
        LoweredNext(was, v.watermark);
        EvictableSplit(was.pages, v.watermark - 1, v.watermark, was.watermark);
        c, rest, spent' := EvictTop(v, m, target, c, rest, spent');
      }
    }

    /** One round of the walk up the list. */
    method ReapForAt(i: nat, m: ModelVbar, target: nat, cursor: nat, surplus: int, ghost spent: nat,
                     ghost was: seq<Vbar>)
      returns (c: nat, rest: int, ghost spent': nat)
      requires Valid() && i < |list| == |was| && m in list
      requires AllOk(was) && Reaped(was, Values()) && Values()[i] == was[i]
      requires CursorOk(m.Value(), cursor, spent, m.watermark) && Spent(m, target, cursor, surplus)
      requires forall k | 0 <= k < i :: Values()[k].watermark <= Values()[k].limit
      requires forall k | i <= k < |list| :: Values()[k] == was[k]
      modifies this`usage, list
      ensures Valid() && Reaped(was, Values())
      ensures CursorOk(m.Value(), c, spent', m.watermark) && spent <= spent'
      ensures rest + usage == surplus + old(usage) - (spent' - spent) * VBAR_PAGE_SIZE
      ensures forall k | i < k < |list| :: Values()[k] == was[k]
      ensures Wants(m, target, c, rest) ==> forall k | 0 <= k <= i :: Values()[k].watermark <= Values()[k].limit
      ensures Spent(m, target, c, rest) && ((usage == old(usage) && rest == surplus) || rest < VBAR_PAGE_SIZE)
    {
      hide AllOk, VbarOk, LoweredTo, SumResidents, SumEvictable, Residents, EvictableOf, CursorOk, ValuesOf;
      ghost var before := Values();
      OkAt(before, i);
      CursorLength(m.Value(), cursor, spent, m.watermark);
      c, rest, spent' := ReapFor(list[i], m, target, cursor, surplus, spent);
      ghost var v := list[i].Value();
      ValuesAre(list, before, i);
      ReapStep(was, before, i, v);
      SumsUpdate(before, i, v);
      LoweredFacts(before[i], v);
    }

    /** The surplus pays for every absent page below target and watermark. */
    predicate Enough(m: ModelVbar, target: nat, surplus: int)
      reads m
    {
      m.watermark <= |m.pages| && AbsentBelow(m.pages, Min(target, m.watermark)) * VBAR_PAGE_SIZE <= surplus
    }

    /** The surplus there is, spent on absent pages from the first one on. */
    method StartCursor(m: ModelVbar, target: nat, surplus: int) returns (cursor: nat, left: int, ghost spent: nat)
      requires m.watermark <= |m.pages|
      ensures CursorOk(m.Value(), cursor, spent, m.watermark)
      ensures left == surplus - spent * VBAR_PAGE_SIZE && Spent(m, target, cursor, left)
      ensures Enough(m, target, surplus) ==> !Wants(m, target, cursor, left)
    {
      cursor := MoveCursorToAbsent(m, 0, m.watermark);
      CursorStart(m.Value(), cursor);
      cursor, left, spent := SpendSurplusOnCursor(m, target, cursor, surplus, 0, m.watermark);
      if Enough(m, target, surplus) {
        EnoughSurplus(m.Value(), target, cursor, spent, surplus);
      }
    }

    /**
     `vbars_free_for_vbar`.  `surplus` is what the capacity leaves after usage, the
     requested pages and the headroom.  Surplus plus usage plus the pages paid for is
     conserved; and if the walk stops while some VBAR is still above its limit, the
     surplus is not negative and every absent page of `m` below both its watermark
     and the target is paid for.  If anything was evicted, less than a page is left over.
     */
    method VbarsFreeForVbar(m: ModelVbar, target: nat, surplus: int) returns (ghost rest: int, ghost spent: nat)
      requires Valid() && m in list
      modifies this`usage, list
      ensures Valid() && Reaped(old(Values()), Values())
      ensures m.watermark <= |m.pages|
      ensures rest + usage + spent * VBAR_PAGE_SIZE == surplus + old(usage)
      ensures (exists v :: v in list && v.watermark > v.limit) ==> rest >= 0 && PaidFor(m.Value(), target, spent)
      ensures old(Enough(m, target, surplus)) ==> Values() == old(Values()) && usage == old(usage)
      ensures usage == old(usage) || rest < VBAR_PAGE_SIZE
    {
      hide AllOk, VbarOk, Reaped, SumResidents, CursorOk, AbsentBelow, ValuesOf, Distinct;
      ghost var was := Values();
      ReapedRefl(was);
      MemberOk(this, m);
      var cursor, left;
      cursor, left, spent := StartCursor(m, target, surplus);
      ghost var wanted := Wants(m, target, cursor, left);
      var i := 0;
      while Wants(m, target, cursor, left) && i < |list|
        invariant i <= |list| == |was|
        invariant Valid() && Reaped(was, Values())
        invariant !wanted ==> i == 0 && !Wants(m, target, cursor, left) && usage == old(usage)
        invariant CursorOk(m.Value(), cursor, spent, m.watermark)
        invariant Spent(m, target, cursor, left) && (usage == old(usage) || left < VBAR_PAGE_SIZE)
        invariant left + usage + spent * VBAR_PAGE_SIZE == surplus + old(usage)
        invariant forall k | i <= k < |list| :: Values()[k] == was[k]
        invariant Wants(m, target, cursor, left) ==> forall k | 0 <= k < i :: Values()[k].watermark <= Values()[k].limit
      {
        cursor, left, spent := ReapForAt(i, m, target, cursor, left, spent, was);
        i := i + 1;
      }
      rest := left;
      MemberOk(this, m);
      CursorDone(m.Value(), target, cursor, spent);
    }

    // -------------------------------------------------------------- faulting a range in

    /** Every VBAR is down to its limit, or `pages` more pages leave the headroom free. */
    ghost predicate Budgeted(pages: int)
      reads this, list
    {
      AtLimits(Values()) || usage + pages * VBAR_PAGE_SIZE + headroom <= capacity
    }

    /** Give `m` one page of memory, if the driver does. */
    method Load(m: ModelVbar, page: nat, r: DriverResult)
      requires Valid() && m in list && page < m.watermark <= |m.pages| && !m.pages[page].resident
      modifies this`usage, m`pages, m`residentCount
      ensures Valid() && AllShuffled(old(Values()), Values())
      ensures if r == DriverOk then m.pages == old(m.pages)[page := Loaded(old(m.pages[page]))]
              else m.pages == old(m.pages)
      ensures usage == old(usage) + (if r == DriverOk then VBAR_PAGE_SIZE else 0)
      ensures AtLimits(old(Values())) ==> AtLimits(Values())
    {
      hide AllOk, VbarOk, SumResidents, SumEvictable, AllShuffled, Residents, EvictableOf, VbarShuffled, ValuesOf;
      ghost var before := Values();
      MemberOk(this, m);
      ShuffledRefl(before);
      if r == DriverOk {
        m.pages := m.pages[page := Loaded(m.pages[page])];
        m.residentCount := m.residentCount + 1;
        usage := usage + VBAR_PAGE_SIZE;
        ghost var k :| 0 <= k < |list| && list[k] == m;
        ValuesAre(list, before, k);
        LoadedOk(before[k], page);
        SumsUpdate(before, k, m.Value());
        UpdateShuffled(before, k, m.Value());
      }
    }

    /** Evict one page's worth and try again, unless that lowered the watermark of `m` itself. */
    method RetryLoad(m: ModelVbar, page: nat, end: nat, answer: DriverResult) returns (r: FaultResult)
      requires Valid() && m in list && page < end <= m.watermark <= |m.pages| && !m.pages[page].resident
      modifies this`usage, list
      ensures Valid() && AllShuffled(old(Values()), Values())
      ensures (r == OutOfMemory <==> end > m.watermark) && (r == Error ==> answer != DriverOk)
      ensures r == Success ==> end <= m.watermark <= |m.pages| && m.pages[page].resident
      ensures r == Success ==> |m.pages| == |old(m.pages)| && forall i | 0 <= i < end && i != page ::
                m.pages[i] == old(m.pages)[i]
      ensures old(Budgeted(end - page)) ==> Budgeted(if r == Success then end - page - 1 else end - page)
    {
      hide AllOk, VbarOk, SumResidents, SumEvictable, AllShuffled, Reaped, AtLimits;
      ghost var was := Values();
      var left := VbarsFree(VBAR_PAGE_SIZE);
      ReapedShuffled(was, Values());
      ReapedAtLimits(was, Values());
      MemberOk(this, m);
      if end > m.watermark {
        return OutOfMemory;
      }
      KeptBelow(this, m, was, Values(), end);
      ghost var reaped := Values();
      Load(m, page, answer);
      ShuffledTransitive(was, reaped, Values());
      r := if answer == DriverOk then Success else Error;
    }

    /** Make page `page` resident, evicting once more when the driver or the budget says no. */
    method FaultPage(m: ModelVbar, page: nat, end: nat, answer: Answer) returns (r: FaultResult)
      requires Valid() && m in list && page < end <= m.watermark <= |m.pages| && !m.pages[page].resident
      modifies this`usage, list
      ensures Valid() && AllShuffled(old(Values()), Values())
      ensures (r == OutOfMemory <==> end > m.watermark) && (r == Error ==> Denied(answer))
      ensures r == Success ==> end <= m.watermark <= |m.pages| && m.pages[page].resident
      ensures r == Success ==> |m.pages| == |old(m.pages)| && forall i | 0 <= i < end && i != page ::
                m.pages[i] == old(m.pages)[i]
      ensures old(Budgeted(end - page)) ==> Budgeted(if r == Success then end - page - 1 else end - page)
      ensures Granted(answer) ==> r == Success && OnlyLoaded(old(Values()), Values(), list, m, page)
    {
      hide AllOk, VbarOk, SumResidents, SumEvictable, AllShuffled, Reaped, AtLimits;
      ghost var was := Values();
      ShuffledRefl(was);
      if answer.deficit <= 0 {
        Load(m, page, answer.first);
        if answer.first == DriverOk {
          return Success;
        }
        if answer.first != DriverOutOfMemory {
          return Error;
        }
      }
      ghost var before := Values();
      r := RetryLoad(m, page, end, answer.second);
      ShuffledTransitive(was, before, Values());
    }

    /** Nothing is owed, the driver grants every page of the range, and there is room for all of it. */
    ghost predicate Ample(m: ModelVbar, first: nat, end: nat, deficit: int, answers: nat -> Answer)
      reads this, list, m
    {
      && deficit <= 0 && end <= m.watermark <= |m.pages|
      && (forall i | first <= i < end :: Granted(answers(i)))
      && usage + (end - first + AbsentBelow(m.pages, end)) * VBAR_PAGE_SIZE + headroom <= capacity
    }

    /** Load [first, end) of `m`, leaving every pin as it is. */
    method FaultUnpinned(m: ModelVbar, first: nat, end: nat, deficit: int, answers: nat -> Answer)
      returns (r: FaultResult, signature: seq<nat>)
      requires Valid() && m in list
      modifies this`usage, list
      ensures Valid() && AllOk(old(Values())) && AllShuffled(old(Values()), Values())
      ensures r == Success ==>
                && end <= m.watermark <= |m.pages|
                && Signed(m.pages, first, end, signature)
      ensures PinsAdded(old(m.pages), m.pages, first, end, false)
      ensures r == OutOfMemory <==> end > m.watermark
      ensures r == Error ==> SomeDenied(answers, first, end)
      ensures SameSerials(old(m.pages), m.pages) || Budgeted(0)
      ensures old(Ample(m, first, end, deficit, answers)) ==>
                r == Success && LoadedRange(old(Values()), Values(), list, m, first, end)
    {
      hide AllOk, VbarOk, SumResidents, SumEvictable, AllShuffled, Reaped, Residents, EvictableOf, Signed, AtLimits,
           ValuesOf, Distinct, LoadedRange;
      ghost var was := Values();
      var left := VbarsFree(deficit);
      ReapedShuffled(was, Values());
      SerialsKept(this, m, was, Values());
      r, signature := FaultRange(m, first, end, answers, was);
      PinsKept(this, m, was, Values());
    }

    /**
     `vbar_fault`.  On success the whole range is resident, pinned once more, below
     the watermark, and the signature is that of its pages, even though evictions
     along the way may lower the watermark of this very VBAR.  It fails for want of memory
     exactly if the range does not lie below the watermark in the end, and with an error only
     if the driver denied a page.  If it loaded anything, then either the headroom is free or
     nothing is left to evict.  `deficit` and `answers` are what budget and driver say.
     */
    method Fault(m: ModelVbar, offset: nat, size: nat, deficit: int, answers: nat -> Answer)
      returns (r: FaultResult, signature: seq<nat>)
      requires Valid() && m in list
      modifies this`usage, list
      ensures Valid() && AllStep(old(Values()), Values())
      ensures |m.pages| == |old(m.pages)|
      ensures r == Success ==>
                var first, end := PageNr(offset), PagesUp(offset + size);
                && end <= m.watermark <= |m.pages|
                && Signed(m.pages, first, end, signature)
      ensures r == Success ==> forall x: nat | offset <= x < offset + size ::
                ByteReady(old(m.pages), m.Value(), offset, signature, x)
      ensures PinsAdded(old(m.pages), m.pages, PageNr(offset), PagesUp(offset + size), r == Success)
      ensures r == OutOfMemory <==> PagesUp(offset + size) > m.watermark
      ensures r == Error ==>
                exists i ::
                  && PageNr(offset) <= i < PagesUp(offset + size)
                  && (answers(i).second != DriverOk || (answers(i).deficit <= 0 && answers(i).first == DriverError))
      ensures SameSerials(old(m.pages), m.pages) || Budgeted(0)
      ensures old(Ample(m, PageNr(offset), PagesUp(offset + size), deficit, answers)) ==>
                r == Success && OnlyRange(old(Values()), Values(), list, m, PageNr(offset), PagesUp(offset + size))
    {
      hide AllOk, VbarOk, SumResidents, SumEvictable, AllShuffled, Residents, AllPinned, AllStep, PagesUp, PageNr,
           Signed, ValuesOf, Distinct, AtLimits;
      var first, end := PageNr(offset), PagesUp(offset + size);
      ghost var was := Values();
      r, signature := FaultUnpinned(m, first, end, deficit, answers);
      if r != Success {
        OnlyShuffled(was, Values());
        return;
      }
      ghost var loaded, pages := Values(), m.pages;
      SignedResident(m.pages, first, end, signature);
      Pin(m, first, end);
      SignedKept(pages, m.pages, first, end, signature);
      PinnedStep(was, loaded, Values());
      forall x: nat | offset <= x < offset + size
        ensures ByteReady(old(m.pages), m.Value(), offset, signature, x)
      {
        ByteInPages(offset, size, x);
        assert SignedAt(m.pages, first, PageNr(x), signature);
      }
    }

    /** One missing page; the first miss of a call makes room for all the rest of the range. */
    method FaultAbsent(m: ModelVbar, page: nat, end: nat, checked: bool, answer: Answer) returns (r: FaultResult)
      requires Valid() && m in list && page < end <= m.watermark <= |m.pages| && !m.pages[page].resident
      requires checked ==> Budgeted(end - page)
      modifies this`usage, list
      ensures Valid() && AllShuffled(old(Values()), Values())
      ensures (r == OutOfMemory <==> end > m.watermark) && (r == Error ==> Denied(answer))
      ensures r == Success ==> end <= m.watermark <= |m.pages| && m.pages[page].resident
      ensures r == Success ==> |m.pages| == |old(m.pages)| && forall i | 0 <= i < end && i != page ::
                m.pages[i] == old(m.pages)[i]
      ensures Budgeted(if r == Success then end - page - 1 else end - page)
      ensures Granted(answer) && (checked || old(Spacious(m, page, end))) ==>
                r == Success && OnlyLoaded(old(Values()), Values(), list, m, page)
    {
      hide AllOk, VbarOk, SumResidents, SumEvictable, AllShuffled, Reaped, AtLimits, ValuesOf, Distinct;
      ghost var was := Values();
      ShuffledRefl(was);
      if !checked {
        var surplus := capacity - (usage + (end - page) * VBAR_PAGE_SIZE + headroom);
        ghost var rest, spent := VbarsFreeForVbar(m, end, surplus);
        ReapedShuffled(was, Values());
        AboveLimits(this);
        if end > m.watermark {
          return OutOfMemory;
        }
        KeptBelow(this, m, was, Values(), end);
      }
      ghost var before := Values();
      r := FaultPage(m, page, end, answer);
      ShuffledTransitive(was, before, Values());
    }

    /** Room for the rest of the range, and for every absent page below it once more. */
    ghost predicate Spacious(m: ModelVbar, page: nat, end: nat)
      reads this, m
    {
      && end <= m.watermark <= |m.pages|
      && usage + (end - page + AbsentBelow(m.pages, end)) * VBAR_PAGE_SIZE + headroom <= capacity
    }

    method FaultNext(m: ModelVbar, page: nat, end: nat, checked: bool, answer: Answer, ghost was: seq<Vbar>)
      returns (r: FaultResult)
      requires Valid() && m in list && page < end <= m.watermark <= |m.pages| && !m.pages[page].resident
      requires AllShuffled(was, Values()) && (checked ==> Budgeted(end - page))
      modifies this`usage, list
      ensures Valid() && AllShuffled(was, Values())
      ensures (r == OutOfMemory <==> end > m.watermark) && (r == Error ==> Denied(answer))
      ensures r == Success ==> end <= m.watermark <= |m.pages| == |old(m.pages)| && m.pages[page].resident
      ensures r == Success ==> forall i | 0 <= i < end && i != page :: m.pages[i] == old(m.pages)[i]
      ensures Budgeted(if r == Success then end - page - 1 else end - page)
      ensures Granted(answer) && (checked || old(Spacious(m, page, end))) ==>
                r == Success && OnlyLoaded(old(Values()), Values(), list, m, page)
    {
      hide AllOk, VbarOk, SumResidents, AllShuffled, Distinct, ValuesOf, AtLimits;
      ghost var before := Values();
      r := FaultAbsent(m, page, end, checked, answer);
      ShuffledTransitive(was, before, Values());
    }

    /** Load every absent page of [first, end), collecting the signature. */
    method FaultRange(m: ModelVbar, first: nat, end: nat, answers: nat -> Answer, ghost was: seq<Vbar>)
      returns (r: FaultResult, signature: seq<nat>)
      requires Valid() && m in list && AllOk(was) && AllShuffled(was, Values())
      modifies this`usage, list
      ensures Valid() && AllShuffled(was, Values())
      ensures r == Success ==>
                && end <= m.watermark <= |m.pages|
                && Signed(m.pages, first, end, signature)
      ensures r == OutOfMemory <==> end > m.watermark
      ensures r == Error ==> SomeDenied(answers, first, end)
      ensures m.pages == old(m.pages) || Budgeted(0)
      ensures old(Ample(m, first, end, 0, answers)) ==>
                r == Success && LoadedRange(old(Values()), Values(), list, m, first, end)
    {
      hide AllOk, VbarOk, SumResidents, SumEvictable, AllShuffled, VbarShuffled, Signed, Distinct, ValuesOf, AtLimits,
           LoadedRange, OnlyLoaded, AbsentBelow, Residents, EvictableOf, Denied;
      signature := [];
      MemberOk(this, m);
      if end > m.watermark {
        return OutOfMemory, signature;
      }
      ghost var before, pages0 := Values(), m.pages;
      ghost var ample := Ample(m, first, end, 0, answers);
      LoadedNothing(before, list, m, first);
      var checked := false;
      var page := first;
      SignedNone(m.pages, first);
      while page < end
        invariant first <= page && (page <= end || page == first)
        invariant Valid() && AllShuffled(was, Values())
        invariant end <= m.watermark <= |m.pages| == |pages0|
        invariant Signed(m.pages, first, page, signature)
        invariant if checked then Budgeted(end - page)
                  else m.pages == pages0 && usage == old(usage) && Values() == before
        invariant checked ==> page <= end
        invariant ample ==> LoadedRange(before, Values(), list, m, first, page)
      {
        ghost var pages, now := m.pages, Values();
        if !m.pages[page].resident {
          r := FaultNext(m, page, end, checked, answers(page), was);
          checked := true;
          if r != Success {
            return;
          }
          if ample { LoadedMore(before, now, Values(), list, m, first, page); }
        } else if ample {
          LoadedAlready(before, now, list, m, first, page);
        }
        SignedKept(pages, m.pages, first, page, signature);
        SignedMore(m.pages, first, page, signature);
        signature := signature + [Signature(m.pages[page])];
        page := page + 1;
      }
      SignedEmpty(m.pages, first, end, page, signature);
      if ample { LoadedEmpty(before, Values(), list, m, first, end, page); }
      r := Success;
    }

    method Pin(m: ModelVbar, first: nat, end: nat)
      requires Valid() && m in list && end <= |m.pages|
      requires forall i | first <= i < end :: m.pages[i].resident
      modifies m`pages
      ensures Valid() && AllPinned(old(Values()), Values()) && (AtLimits(old(Values())) ==> AtLimits(Values()))
      ensures |m.pages| == |old(m.pages)|
      ensures forall i | 0 <= i < |m.pages| ::
                m.pages[i] == if first <= i < end then Pinned(old(m.pages)[i]) else old(m.pages)[i]
    {
      hide AllOk, VbarOk, SumResidents, ValuesOf;
      ghost var before := Values();
      ghost var k :| 0 <= k < |list| && list[k] == m;
      var page := first;
      while page < end
        invariant first <= page && (page <= end || page == first) && |m.pages| == |before[k].pages|
        invariant forall i | 0 <= i < |m.pages| ::
                    m.pages[i] == if first <= i < page then Pinned(before[k].pages[i]) else before[k].pages[i]
      {
        m.pages := m.pages[page := Pinned(m.pages[page])];
        page := page + 1;
      }
      ValuesAre(list, before, k);
      PinnedOk(before, k, m.Value(), first, end);
    }

    // -------------------------------------------------------------- the other calls

    /** `vbar_unpin`: drop one pin of each page; above the watermark an unpinned page goes at once. */
    method Unpin(m: ModelVbar, offset: nat, size: nat)
      requires Valid() && m in list
      modifies this`usage, m`pages, m`residentCount
      ensures Valid() && AllStep(old(Values()), Values())
      ensures |m.pages| == |old(m.pages)|
      ensures forall i | 0 <= i < |m.pages| && PageNr(offset) <= i < PagesUp(offset + size) ::
                var p, p' := old(m.pages)[i], m.pages[i];
                && p'.pins == (if p.pins > 0 then p.pins - 1 else 0) && p'.serial == p.serial
                && p'.unpins == p.unpins + 1 && p'.faults == p.faults
                && p'.resident == (p.resident && (i < m.watermark || p'.pins > 0))
                && p'.evictions == p.evictions + (if p.resident && !p'.resident then 1 else 0)
      ensures forall i | 0 <= i < |m.pages| && !(PageNr(offset) <= i < PagesUp(offset + size)) ::
                m.pages[i] == old(m.pages)[i]
    {
      hide AllOk, VbarOk, SumResidents, SumEvictable, Residents, PagesUp, ValuesOf;
      ghost var before := Values();
      ghost var k :| 0 <= k < |list| && list[k] == m;
      OkAt(before, k);
      var first, end := PageNr(offset), PagesUp(offset + size);
      var page := first;
      while page < end && page < |m.pages|
        invariant first <= page && (page <= end || page == first)
        invariant |m.pages| == |before[k].pages|
        invariant forall i | 0 <= i < |m.pages| ::
                    m.pages[i] == if first <= i < page then Released(before[k].pages[i], i >= m.watermark)
                                  else before[k].pages[i]
        invariant m.residentCount == before[k].residentCount + Residents(m.pages) - Residents(before[k].pages)
        invariant usage == old(usage) + (Residents(m.pages) - Residents(before[k].pages)) * VBAR_PAGE_SIZE
      {
        ghost var p := m.pages[page];
        ResidentsUpdate(m.pages, page, Unpinned(p));
        m.pages := m.pages[page := Unpinned(m.pages[page])];
        ghost var unpinned := m.pages;
        ResidentsUpdate(m.pages, page, Evicted(m.pages[page]));
        var freed := Mod1(m, page, page >= m.watermark, false);
        assert !freed ==> m.pages == unpinned;
        page := page + 1;
      }
      ValuesAre(list, before, k);
      ReleasedOk(before, k, m.Value(), first, end);
    }

    /** `vbar_set_watermark`: whatever the limit, evict from the new watermark up. */
    method SetWatermark(m: ModelVbar, size: nat)
      requires Valid() && m in list
      modifies this`usage, m`pages, m`residentCount, m`watermark
      ensures Valid() && AllShuffled(old(Values()), Values())
      ensures m.watermark == Min(PagesUp(size), |m.pages|)
      ensures old(m.watermark) <= |old(m.pages)| &&
              m.Value() == if m.watermark < old(m.watermark) then Lowered(old(m.Value()), m.watermark)
                           else old(m.Value()).(watermark := m.watermark)
    {
      hide AllOk, VbarOk, SumResidents, SumEvictable, Residents, PagesUp, AllShuffled, ValuesOf;
      ghost var before := Values();
      ghost var k :| 0 <= k < |list| && list[k] == m;
      OkAt(before, k);
      var watermark := PagesUp(size);
      if watermark > |m.pages| {
        watermark := |m.pages|;
      }
      if watermark < m.watermark {
        EvictAbove(m, watermark);
      }
      m.watermark := watermark;
      ValuesAre(list, before, k);
      WatermarkOk(before, k, m.Value());
    }

    /** Evict what may be evicted of [from, watermark), lowest page first. */
    method EvictAbove(m: ModelVbar, from: nat)
      requires from <= m.watermark <= |m.pages|
      modifies this`usage, m`pages, m`residentCount
      ensures m.Value() == Lowered(old(m.Value()), from).(watermark := m.watermark)
      ensures usage == old(usage) - EvictableIn(old(m.pages), from, m.watermark) * VBAR_PAGE_SIZE
    {
      ghost var was := m.pages;
      var page := from;
      while page < m.watermark
        invariant from <= page <= m.watermark && |m.pages| == |was|
        invariant forall i | 0 <= i < |m.pages| ::
                    m.pages[i] == if from <= i < page && Evictable(was[i]) then Evicted(was[i]) else was[i]
        invariant m.residentCount == old(m.residentCount) - EvictableIn(was, from, page)
        invariant usage == old(usage) - EvictableIn(was, from, page) * VBAR_PAGE_SIZE
      {
        var freed := Mod1(m, page, true, false);
        page := page + 1;
      }
      assert m.pages == Lowered(old(m.Value()), from).pages;
    }

    /** `vbar_free_memory`: evict from this VBAR alone; exactly the smaller of asked and evictable. */
    method FreeMemory(m: ModelVbar, size: nat) returns (freed: nat)
      requires Valid() && m in list
      modifies this`usage, m`pages, m`residentCount, m`watermark
      ensures Valid() && AllShuffled(old(Values()), Values()) && LoweredTo(old(m.Value()), m.Value())
      ensures freed == Min(PagesUp(size), old(EvictableOf(m.Value()))) * VBAR_PAGE_SIZE
      ensures usage == old(usage) - freed
    {
      hide AllOk, VbarOk, SumResidents, SumEvictable, Residents, PagesUp, AllShuffled, LoweredTo, ValuesOf;
      ghost var before := Values();
      ghost var k :| 0 <= k < |list| && list[k] == m;
      OkAt(before, k);
      var needed := PagesUp(size);
      var left := Reap(m, needed);
      LoweredFacts(before[k], m.Value());
      NoneAbove(m.Value());
      freed := (needed - left) * VBAR_PAGE_SIZE;
      ValuesAre(list, before, k);
      LoweredToOk(before, k, m.Value());
    }

    method SetWatermarkLimit(m: ModelVbar, size: nat)
      requires Valid() && m in list
      modifies m`limit
      ensures Valid() && m.limit == PagesUp(size)
    {
      hide AllOk, VbarOk, SumResidents, SumEvictable, Residents, PagesUp, ValuesOf;
      ghost var before := Values();
      ghost var k :| 0 <= k < |list| && list[k] == m;
      LimitOk(before, k, PagesUp(size));
      m.limit := PagesUp(size);
      ValuesAre(list, before, k);
    }

    /** `vbars_reset_watermark_limits`. */
    method ResetWatermarkLimits()
      requires Valid()
      modifies list
      ensures Valid() && forall m | m in list :: m.Value() == old(m.Value()).(limit := 0)
    {
      hide AllOk, VbarOk, SumResidents, SumEvictable, Residents, ValuesOf;
      var i := 0;
      while i < |list|
        invariant i <= |list| && Valid()
        invariant forall k | 0 <= k < |list| ::
                    list[k].Value() == if k < i then old(list[k].Value()).(limit := 0) else old(list[k].Value())
      {
        SetWatermarkLimit(list[i], 0);
        i := i + 1;
      }
    }

    /** `vbar_allocate`: a new VBAR on top, no larger than the device. */
    method Allocate(size: nat) returns (m: ModelVbar)
      requires Valid() && capacity >= 0
      modifies this`list
      ensures Valid() && fresh(m) && list == old(list) + [m]
      ensures m.Value() == Vbar(seq(Min(PagesUp(size), capacity / VBAR_PAGE_SIZE), _ => Page(false, 0, 0, 0, 0, 0)),
                                Min(PagesUp(size), capacity / VBAR_PAGE_SIZE), 0, 0)
    {
      hide AllOk, VbarOk, SumResidents, SumEvictable, Residents, PagesUp, Distinct, ValuesOf;
      var nrPages := PagesUp(size);
      if capacity / VBAR_PAGE_SIZE < nrPages {
        nrPages := capacity / VBAR_PAGE_SIZE;
      }
      ghost var before := Values();
      m := new ModelVbar(nrPages);
      ValuesLast(list, m);
      NewOk(m.Value());
      SumsLast(before, m.Value());
      DistinctLast(list, m);
      list := list + [m];
    }

    /** Where the VBAR stands in the list. */
    method Locate(m: ModelVbar) returns (i: nat)
      requires m in list
      ensures i < |list| && list[i] == m
    {
      i := 0;
      while list[i] != m
        invariant 0 <= i < |list| && m in list[i..]
        decreases |list| - i
      {
        i := i + 1;
      }
    }

    /** `remove_vbar` followed by `insert_vbar` or `insert_vbar_last`. */
    method Move(m: ModelVbar, toTop: bool) returns (ghost k: nat)
      requires Valid() && m in list
      modifies this`list
      ensures Valid()
      ensures k < |old(list)| && old(list)[k] == m && list == Moved(old(list), k, toTop)
      ensures Values() == Moved(old(Values()), k, toTop)
    {
      hide AllOk, VbarOk, SumResidents, SumEvictable, Residents, Distinct, ValuesOf, Moved;
      ghost var before := Values();
      var i := Locate(m);
      k := i;
      ghost var was := list;
      DistinctMoved(was, k, toTop);
      SumsMove(before, k, toTop);
      AllOkMoved(before, k, toTop);
      ValuesMoved(was, k, toTop);
      MovedIs(was, i, toTop);
      list := if toTop then list[..i] + list[i + 1..] + [m] else [m] + list[..i] + list[i + 1..];
    }

    /** `vbar_prioritize`: to the top of the list, with the whole range allowed again. */
    method Prioritize(m: ModelVbar)
      requires Valid() && m in list
      modifies this`list, m`watermark
      ensures Valid() && m.watermark == |m.pages|
      ensures exists k :: 0 <= k < |old(list)| && old(list)[k] == m && list == Moved(old(list), k, true)
    {
      hide AllOk, SumResidents, SumEvictable, Residents, Moved;
      ghost var k := Move(m, true);
      MovedEnds(old(list), k, true);
      ghost var before := Values();
      ghost var n := |list| - 1;
      m.watermark := |m.pages|;
      assert Values() == before[n := m.Value()];
      TopWatermark(before, n, m.Value());
    }

    /** `vbar_deprioritize`: to the bottom of the list. */
    method Deprioritize(m: ModelVbar)
      requires Valid() && m in list
      modifies this`list
      ensures Valid()
      ensures exists k :: 0 <= k < |old(list)| && old(list)[k] == m && list == Moved(old(list), k, false)
    {
      ghost var k := Move(m, false);
    }

    /** `vbar_free`: every page goes, pinned or not, and the VBAR leaves the list. */
    method Free(m: ModelVbar)
      requires Valid() && m in list
      modifies this`list, this`usage, m`pages, m`residentCount
      ensures Valid()
      ensures exists k :: 0 <= k < |old(list)| && old(list)[k] == m && list == old(list)[..k] + old(list)[k + 1..]
      ensures forall i | 0 <= i < |m.pages| :: !m.pages[i].resident && m.pages[i].pins == 0
      ensures usage == old(usage) - Residents(old(m.pages)) * VBAR_PAGE_SIZE
    {
      hide AllOk, VbarOk, SumResidents, SumEvictable, Residents, ValuesOf;
      FreePages(m);
      var i := Locate(m);
      ghost var was := list;
      ghost var before := Values();
      ValuesCut(was, i);
      NoResidents(m.pages);
      SumsDrop(before, i);
      DistinctCut(was, i);
      AllOkCut(before, i);
      list := list[..i] + list[i + 1..];
    }

    // -------------------------------------------------------------- any calls

    /** One call that moves no VBAR: eviction, a fault, an unpin, a watermark or a limit. */
    method AnyPageCall(m: ModelVbar)
      requires Valid() && m in list
      modifies this`usage, list
      ensures Valid() && list == old(list) && PagesStep(old(m.pages), m.pages)
    {
      hide AllOk, VbarOk, SumResidents, SumEvictable, Residents, AllStep, AllShuffled, Reaped, LoweredTo, ValuesOf,
           Distinct, PagesUp, PagesStep, PageOk;
      ghost var was := Values();
      ghost var k :| 0 <= k < |list| && list[k] == m;
      MemberPages(this, m);
      PagesSame(m.pages);
      var i: nat, offset: nat, size: nat, choice: nat := *, *, *, *;
      if i >= |list| { return; }
      var v := list[i];
      match choice
      case 0 =>
        var _ := VbarsFree(size);
        ReapedShuffled(was, Values());
        OnlyShuffled(was, Values());
        StepAt(was, Values(), k);
      case 1 =>
        var deficit: int, answers: nat -> Answer := *, *;
        var _, _ := Fault(v, offset, size, deficit, answers);
        StepAt(was, Values(), k);
      case 2 =>
        Unpin(v, offset, size);
        StepAt(was, Values(), k);
      case 3 =>
        SetWatermark(v, size);
        OnlyShuffled(was, Values());
        StepAt(was, Values(), k);
      case 4 =>
        var _ := FreeMemory(v, size);
        OnlyShuffled(was, Values());
        StepAt(was, Values(), k);
      case 5 =>
        SetWatermarkLimit(v, size);
      case _ =>
        ResetWatermarkLimits();
    }

    /** One call of any kind, on any VBAR, other than freeing `m`. */
    method AnyCall(m: ModelVbar)
      requires Valid() && m in list && capacity >= 0
      modifies this`usage, this`list, list
      ensures Valid() && m in list && PagesStep(old(m.pages), m.pages)
      ensures forall k | 0 <= k < |list| :: list[k] in old(list) || fresh(list[k])
    {
      hide AllOk, VbarOk, SumResidents, SumEvictable, Residents, ValuesOf, Distinct, PagesUp, Moved, PagesStep, PageOk;
      MemberPages(this, m);
      PagesSame(m.pages);
      var i: nat, size: nat, choice: nat := *, *, *;
      if i >= |list| { return; }
      var v := list[i];
      ghost var was := list;
      match choice
      case 0 => var _ := Allocate(size);
      case 1 =>
        Prioritize(v);
        ghost var k :| 0 <= k < |was| && was[k] == v && list == Moved(was, k, true);
        MovedMembers(was, k, true);
      case 2 =>
        Deprioritize(v);
        ghost var k :| 0 <= k < |was| && was[k] == v && list == Moved(was, k, false);
        MovedMembers(was, k, false);
      case 3 =>
        if v != m {
          Free(v);
          ghost var k :| 0 <= k < |was| && was[k] == v && list == was[..k] + was[k + 1..];
          CutMembers(was, k);
        }
      case _ => AnyPageCall(m);
    }

    /** Any number of such calls; `h` records the pages of `m` from before the first to after the last. */
    method AnyCalls(m: ModelVbar) returns (ghost h: seq<seq<Page>>)
      requires Valid() && m in list && capacity >= 0
      modifies this`usage, this`list, list
      ensures Valid() && m in list && Recorded(h) && h[0] == old(m.pages) && h[|h| - 1] == m.pages
      ensures forall k | 0 <= k < |list| :: list[k] in old(list) || fresh(list[k])
    {
      hide AllOk, VbarOk, SumResidents, ValuesOf, Distinct, PagesStep, PageOk, Recorded;
      MemberPages(this, m);
      RecordedFirst(m.pages);
      h := [m.pages];
      var calls: nat := *;
      while calls > 0
        invariant Valid() && m in list && |h| > 0 && Recorded(h) && h[0] == old(m.pages) && h[|h| - 1] == m.pages
        invariant forall k | 0 <= k < |list| :: list[k] in old(list) || fresh(list[k])
      {
        AnyCall(m);
        MemberPages(this, m);
        RecordedMore(h, m.pages);
        h := h + [m.pages];
        calls := calls - 1;
      }
    }

    /**
     A successful fault, and any calls of any kinds after it.  As long as a page of the
     range stays pinned, it stays resident and is neither evicted nor loaded again.  That
     is so at least as long as unpins do not catch up with faults.
     */
    method FaultAndKeep(m: ModelVbar, offset: nat, size: nat, deficit: int, answers: nat -> Answer)
      returns (r: FaultResult, signature: seq<nat>, ghost h: seq<seq<Page>>)
      requires Valid() && m in list && capacity >= 0
      modifies this`usage, this`list, list
      ensures Valid() && m in list && Recorded(h) && h[|h| - 1] == m.pages
      ensures r == Success ==> forall i | PageNr(offset) <= i < PagesUp(offset + size) ::
                i < |h[0]| && h[0][i].pins > 0 && h[0][i].resident
      ensures r == Success ==> forall x: nat | offset <= x < offset + size ::
                PageNr(x) < |h[0]| && h[0][PageNr(x)].pins > 0 && h[0][PageNr(x)].resident
      ensures forall i, t | StaysPinned(h, i, t) :: Untouched(h, i, t)
      ensures forall i: nat, t: nat | t < |h| && i < |h[t]| && Outstanding(h[t][i]) :: h[t][i].pins > 0
    {
      hide AllOk, VbarOk, SumResidents, AllStep, AllShuffled, ValuesOf, Distinct, PagesUp, PagesStep, PageOk, Recorded,
           StaysPinned, Untouched;
      r, signature := Fault(m, offset, size, deficit, answers);
      if r == Success {
        SignedResident(m.pages, PageNr(offset), PagesUp(offset + size), signature);
      }
      h := AnyCalls(m);
      forall i, t | StaysPinned(h, i, t)
        ensures Untouched(h, i, t)
      {
        KeptWhilePinned(h, i, t);
      }
      forall i: nat, t: nat | t < |h| && i < |h[t]| && Outstanding(h[t][i])
        ensures h[t][i].pins > 0
      {
        OutstandingPinned(h, i, t);
      }
    }

    /**
     Two faults of one range with any calls of any kinds in between.  If both succeed with
     one signature, then at every point between them each page of the range was resident
     with one serial, short of its being loaded 2^32 times: it was neither evicted nor
     loaded again.
     */
    method FaultTwice(m: ModelVbar, offset: nat, size: nat, deficit: int, answers: nat -> Answer, deficit': int,
                      answers': nat -> Answer)
      returns (r: FaultResult, r': FaultResult, signature: seq<nat>, signature': seq<nat>, ghost h: seq<seq<Page>>)
      requires Valid() && m in list && capacity >= 0
      modifies this`usage, this`list, list
      ensures Valid() && m in list && Recorded(h) && h[|h| - 1] == m.pages
      ensures r == Success && r' == Success && signature == signature' ==>
                forall i, t: nat | PageNr(offset) <= i < PagesUp(offset + size) && t < |h|
                                   && i < |m.pages| == |h[0]| && m.pages[i].serial - h[0][i].serial < SIGNATURE_RANGE ::
                  Untouched(h, i, t)
      ensures r == Success && r' == Success && signature == signature' ==>
                forall x, t: nat | offset <= x < offset + size && t < |h| && PageNr(x) < |m.pages| == |h[0]|
                                   && m.pages[PageNr(x)].serial - h[0][PageNr(x)].serial < SIGNATURE_RANGE ::
                  Untouched(h, PageNr(x), t)
    {
      hide AllOk, VbarOk, SumResidents, AllStep, AllShuffled, ValuesOf, Distinct, PagesUp, PageNr, Signed, PagesStep,
           PageOk, Recorded, Untouched;
      r, signature := Fault(m, offset, size, deficit, answers);
      ghost var first := m.pages;
      h := AnyCalls(m);
      ghost var was := Values();
      ghost var k :| 0 <= k < |list| && list[k] == m;
      r', signature' := Fault(m, offset, size, deficit', answers');
      StepAt(was, Values(), k);
      MemberPages(this, m);
      RecordedMore(h, m.pages);
      h := h + [m.pages];
      if r == Success && r' == Success && signature == signature' {
        forall i, t: nat | PageNr(offset) <= i < PagesUp(offset + size) && t < |h|
                           && i < |m.pages| == |h[0]| && m.pages[i].serial - h[0][i].serial < SIGNATURE_RANGE
          ensures Untouched(h, i, t)
        {
          SameSignature(h, PageNr(offset), PagesUp(offset + size), signature, i, t);
        }
      }
    }

    /** Evict and unpin every page. */
    method FreePages(m: ModelVbar)
      requires Valid() && m in list
      modifies this`usage, m`pages, m`residentCount
      ensures usage == outside + SumResidents(Values()) * VBAR_PAGE_SIZE
      ensures usage == old(usage) - Residents(old(m.pages)) * VBAR_PAGE_SIZE
      ensures forall v | v in list && v != m :: v.Value() == old(v.Value())
      ensures forall k | 0 <= k < |list| && list[k] != m :: VbarOk(Values()[k])
      ensures forall i | 0 <= i < |m.pages| :: !m.pages[i].resident && m.pages[i].pins == 0
    {
      hide VbarOk, SumResidents, SumEvictable, Residents, ValuesOf;
      ghost var before := Values();
      ghost var k :| 0 <= k < |list| && list[k] == m;
      var page := 0;
      while page < |m.pages|
        invariant 0 <= page <= |m.pages| == |before[k].pages|
        invariant forall i | 0 <= i < page :: !m.pages[i].resident && m.pages[i].pins == 0
        invariant usage == old(usage) + (Residents(m.pages) - Residents(before[k].pages)) * VBAR_PAGE_SIZE
      {
        ghost var p := m.pages[page];
        ResidentsUpdate(m.pages, page, (if p.resident then Evicted(p) else p).(pins := 0));
        var freed := Mod1(m, page, true, true);
        page := page + 1;
      }
      NoResidents(m.pages);
      ValuesAre(list, before, k);
      SumsUpdate(before, k, m.Value());
    }
  }

  /** Page `i` is resident and stands in the signature. */
  predicate SignedAt(pages: seq<Page>, first: nat, i: nat, signature: seq<nat>) {
    first <= i < |pages| && i - first < |signature| && pages[i].resident && signature[i - first] == Signature(pages[i])
  }

  lemma {:induction false} StepAt(vs: seq<Vbar>, vs': seq<Vbar>, k: nat)
    requires k < |vs| && AllStep(vs, vs')
    ensures PagesStep(vs[k].pages, vs'[k].pages)
  {
    assert VbarStep(vs[k], vs'[k]);
  }

  /** At point `t` of a run, page `i` is resident and as it was at the start. */
  ghost predicate Untouched(h: seq<seq<Page>>, i: nat, t: nat) {
    && |h| > t && i < |h[0]| && i < |h[t]|
    && h[t][i].resident && h[t][i].serial == h[0][i].serial && h[t][i].evictions == h[0][i].evictions
  }

  /** Page `i` is pinned from the start of a run to point `t`. */
  ghost predicate StaysPinned(h: seq<seq<Page>>, i: nat, t: nat) {
    t < |h| && i < |h[0]| && forall u | 0 <= u <= t :: i < |h[u]| && h[u][i].pins > 0
  }

  lemma {:induction false} KeptWhilePinned(h: seq<seq<Page>>, i: nat, t: nat)
    requires Recorded(h) && StaysPinned(h, i, t)
    ensures Untouched(h, i, t)
  {
    PinnedThroughout(h, i, t);
  }

  /** A page some fault still covers is pinned. */
  lemma {:induction false} OutstandingPinned(h: seq<seq<Page>>, i: nat, t: nat)
    requires Recorded(h) && t < |h| && i < |h[t]| && Outstanding(h[t][i])
    ensures h[t][i].pins > 0
  {
    assert PageOk(h[t][i]);
  }

  /** Equal signatures at both ends of a run, and not 2^32 loads of a page between them: the page was left alone. */
  lemma {:induction false} SameSignature(h: seq<seq<Page>>, first: nat, end: nat, signature: seq<nat>, i: nat, t: nat)
    requires Recorded(h) && t < |h| && Signed(h[0], first, end, signature) && Signed(h[|h| - 1], first, end, signature)
    requires first <= i < end && i < |h[0]| == |h[|h| - 1]|
    requires h[|h| - 1][i].serial - h[0][i].serial < SIGNATURE_RANGE
    ensures Untouched(h, i, t)
  {
    assert SignedAt(h[0], first, i, signature) && SignedAt(h[|h| - 1], first, i, signature);
    ColumnHistory(h, i);
    SignatureProof(Column(h, i), 0, t, |h| - 1);
  }

  lemma {:induction false} MemberPages(d: Device, m: ModelVbar)
    requires d.Valid() && m in d.list
    ensures forall i | 0 <= i < |m.pages| :: PageOk(m.pages[i])
  {
    var k :| 0 <= k < |d.list| && d.list[k] == m;
    PagesOk(d.Values(), k);
  }

  lemma {:induction false} PagesOk(vs: seq<Vbar>, k: nat)
    requires AllOk(vs) && k < |vs|
    ensures forall i | 0 <= i < |vs[k].pages| :: PageOk(vs[k].pages[i])
  {
    assert VbarOk(vs[k]);
  }

  /** The signature is that of pages [first, end), all of them resident. */
  ghost predicate Signed(pages: seq<Page>, first: nat, end: nat, signature: seq<nat>) {
    && |signature| == (if first < end then end - first else 0)
    && forall i | first <= i < end :: SignedAt(pages, first, i, signature)
  }

  lemma {:induction false} SignedNone(pages: seq<Page>, first: nat)
    ensures Signed(pages, first, first, [])
  {
  }

  lemma {:induction false} SignedEmpty(pages: seq<Page>, first: nat, end: nat, upto: nat, signature: seq<nat>)
    requires Signed(pages, first, upto, signature) && (upto == end || (upto == first && end <= first))
    ensures Signed(pages, first, end, signature)
  {
  }

  lemma {:induction false} SignedMore(pages: seq<Page>, first: nat, page: nat, signature: seq<nat>)
    requires Signed(pages, first, page, signature) && first <= page < |pages| && pages[page].resident
    ensures Signed(pages, first, page + 1, signature + [Signature(pages[page])])
  {
    forall i | first <= i < page + 1
      ensures SignedAt(pages, first, i, signature + [Signature(pages[page])])
    {
      assert i < page ==> SignedAt(pages, first, i, signature);
    }
  }

  lemma {:induction false} SignedKept(pages: seq<Page>, pages': seq<Page>, first: nat, end: nat, signature: seq<nat>)
    requires Signed(pages, first, end, signature) && |pages'| == |pages|
    requires forall i | first <= i < end && i < |pages| ::
               pages'[i].resident == pages[i].resident && pages'[i].serial == pages[i].serial
    ensures Signed(pages', first, end, signature)
  {
    forall i | first <= i < end
      ensures SignedAt(pages', first, i, signature)
    {
      assert SignedAt(pages, first, i, signature);
    }
  }

  lemma {:induction false} SignedResident(pages: seq<Page>, first: nat, end: nat, signature: seq<nat>)
    requires Signed(pages, first, end, signature) && end <= |pages|
    ensures forall i | first <= i < end :: pages[i].resident
  {
    forall i | first <= i < end
      ensures pages[i].resident
    {
      assert SignedAt(pages, first, i, signature);
    }
  }

  /** One `vbar_unpin` of a page, and its eviction if that was the last pin above the watermark. */
  function Released(p: Page, above: bool): Page {
    var q := Unpinned(p);
    if above && Evictable(q) then Evicted(q) else q
  }

  function Moved<T>(s: seq<T>, k: nat, toTop: bool): seq<T>
    requires k < |s|
  {
    if toTop then s[..k] + s[k + 1..] + [s[k]] else [s[k]] + s[..k] + s[k + 1..]
  }

  lemma {:induction false} MovedIs<T>(s: seq<T>, k: nat, toTop: bool)
    requires k < |s|
    ensures Moved(s, k, toTop) == if toTop then s[..k] + s[k + 1..] + [s[k]] else [s[k]] + s[..k] + s[k + 1..]
  {
  }

  lemma {:induction false} ValuesConcat(a: seq<ModelVbar>, b: seq<ModelVbar>)
    ensures ValuesOf(a + b) == ValuesOf(a) + ValuesOf(b)
  {
  }

  lemma {:induction false} ValuesMoved(list: seq<ModelVbar>, k: nat, toTop: bool)
    requires k < |list|
    ensures ValuesOf(Moved(list, k, toTop)) == Moved(ValuesOf(list), k, toTop)
  {
    hide ValuesOf;
    var a, m, b := list[..k], [list[k]], list[k + 1..];
    assert list == a + m + b;
    ValuesConcat(a + m, b);
    ValuesConcat(a, m);
    if toTop {
      ValuesConcat(a + b, m);
      ValuesConcat(a, b);
    } else {
      ValuesConcat(m + a, b);
      ValuesConcat(m, a);
    }
  }

  lemma {:induction false} ValuesCut(list: seq<ModelVbar>, k: nat)
    requires k < |list|
    ensures ValuesOf(list[..k] + list[k + 1..]) == ValuesOf(list)[..k] + ValuesOf(list)[k + 1..]
  {
    hide ValuesOf;
    var a, m, b := list[..k], [list[k]], list[k + 1..];
    assert list == a + m + b;
    ValuesConcat(a + m, b);
    ValuesConcat(a, m);
    ValuesConcat(a, b);
  }

  /** The limit is not part of what holds of a VBAR. */
  lemma {:induction false} LimitOk(vs: seq<Vbar>, k: nat, limit: nat)
    requires AllOk(vs) && k < |vs|
    ensures var vs' := vs[k := vs[k].(limit := limit)]; AllOk(vs') && SumResidents(vs') == SumResidents(vs)
  {
    SumsUpdate(vs, k, vs[k].(limit := limit));
    assert VbarOk(vs[k]);
  }

  lemma {:induction false} ValuesLast(list: seq<ModelVbar>, m: ModelVbar)
    ensures ValuesOf(list + [m]) == ValuesOf(list) + [m.Value()]
  {
  }

  lemma {:induction false} MovedMembers(list: seq<ModelVbar>, k: nat, toTop: bool)
    requires k < |list|
    ensures forall v :: v in Moved(list, k, toTop) <==> v in list
  {
    assert list == list[..k] + [list[k]] + list[k + 1..];
  }

  lemma {:induction false} CutMembers(list: seq<ModelVbar>, k: nat)
    requires k < |list|
    ensures forall v | v in list && v != list[k] :: v in list[..k] + list[k + 1..]
    ensures forall v | v in list[..k] + list[k + 1..] :: v in list
  {
    assert list == list[..k] + [list[k]] + list[k + 1..];
  }

  lemma {:induction false} DistinctLast(list: seq<ModelVbar>, m: ModelVbar)
    requires Distinct(list) && m !in list
    ensures Distinct(list + [m])
  {
  }

  lemma {:induction false} DistinctCut(list: seq<ModelVbar>, k: nat)
    requires Distinct(list) && k < |list|
    ensures Distinct(list[..k] + list[k + 1..])
    ensures forall j | 0 <= j < |list| && j != k :: list[j] != list[k]
  {
  }

  lemma {:induction false} AllOkCut(vs: seq<Vbar>, k: nat)
    requires k < |vs| && forall j | 0 <= j < |vs| && j != k :: VbarOk(vs[j])
    ensures AllOk(vs[..k] + vs[k + 1..])
  {
  }

  lemma {:induction false} SumsConcat(a: seq<Vbar>, b: seq<Vbar>)
    ensures SumResidents(a + b) == SumResidents(a) + SumResidents(b)
    decreases |b|
  {
    if b == [] {
      assert a + b == a;
    } else {
      assert (a + b)[..|a + b| - 1] == a + b[..|b| - 1];
      SumsConcat(a, b[..|b| - 1]);
    }
  }

  lemma {:induction false} SumsOne(v: Vbar)
    ensures SumResidents([v]) == Residents(v.pages)
  {
    assert [v][..0] == [];
  }

  /** Taking element `k` out of the sum. */
  lemma {:induction false} SumsCut(vs: seq<Vbar>, k: nat)
    requires k < |vs|
    ensures SumResidents(vs) == SumResidents(vs[..k]) + Residents(vs[k].pages) + SumResidents(vs[k + 1..])
  {
    hide SumResidents;
    assert vs == (vs[..k] + [vs[k]]) + vs[k + 1..];
    SumsConcat(vs[..k] + [vs[k]], vs[k + 1..]);
    SumsConcat(vs[..k], [vs[k]]);
    SumsOne(vs[k]);
  }

  lemma {:induction false} SumsMove(vs: seq<Vbar>, k: nat, toTop: bool)
    requires k < |vs|
    ensures SumResidents(Moved(vs, k, toTop)) == SumResidents(vs)
  {
    hide SumResidents;
    var a, b := vs[..k], vs[k + 1..];
    SumsCut(vs, k);
    SumsOne(vs[k]);
    if toTop {
      SumsConcat(a + b, [vs[k]]);
      SumsConcat(a, b);
    } else {
      SumsConcat([vs[k]] + a, b);
      SumsConcat([vs[k]], a);
    }
  }

  lemma {:induction false} AllOkMoved(vs: seq<Vbar>, k: nat, toTop: bool)
    requires k < |vs| && AllOk(vs)
    ensures AllOk(Moved(vs, k, toTop))
  {
    hide VbarOk;
    var m := Moved(vs, k, toTop);
    forall i | 0 <= i < |m|
      ensures VbarOk(m[i])
    {
      assert m[i] in vs by { assert vs == vs[..k] + [vs[k]] + vs[k + 1..]; }
    }
  }

  lemma {:induction false} DistinctMoved(list: seq<ModelVbar>, k: nat, toTop: bool)
    requires k < |list| && Distinct(list)
    ensures Distinct(Moved(list, k, toTop))
  {
  }

  lemma {:induction false} MovedEnds<T>(s: seq<T>, k: nat, toTop: bool)
    requires k < |s|
    ensures |Moved(s, k, toTop)| == |s|
    ensures toTop ==> Moved(s, k, toTop)[|s| - 1] == s[k]
  {
  }

  lemma {:induction false} TopWatermark(vs: seq<Vbar>, n: nat, v: Vbar)
    requires AllOk(vs) && n < |vs| && v == vs[n].(watermark := |vs[n].pages|)
    ensures AllOk(vs[n := v]) && SumResidents(vs[n := v]) == SumResidents(vs)
  {
    assert VbarOk(vs[n]) && VbarOk(v);
    SumsUpdate(vs, n, v);
  }

  lemma {:induction false} SumsDrop(vs: seq<Vbar>, k: nat)
    requires k < |vs|
    ensures SumResidents(vs[..k] + vs[k + 1..]) == SumResidents(vs) - Residents(vs[k].pages)
    ensures (forall i | 0 <= i < |vs| && i != k :: VbarOk(vs[i])) ==> AllOk(vs[..k] + vs[k + 1..])
  {
    hide SumResidents, VbarOk;
    SumsCut(vs, k);
    SumsConcat(vs[..k], vs[k + 1..]);
  }

  lemma {:induction false} SumsLast(vs: seq<Vbar>, v: Vbar)
    requires AllOk(vs) && VbarOk(v)
    ensures SumResidents(vs + [v]) == SumResidents(vs) + Residents(v.pages)
    ensures AllOk(vs + [v])
  {
    assert (vs + [v])[..|vs|] == vs;
  }

  lemma {:induction false} NoResidents(s: seq<Page>)
    requires forall i | 0 <= i < |s| :: !s[i].resident
    ensures Residents(s) == 0
    decreases |s|
  {
    if s != [] { NoResidents(s[..|s| - 1]); }
  }

  lemma {:induction false} NewOk(v: Vbar)
    requires v.watermark == |v.pages| && v.residentCount == 0
    requires forall i | 0 <= i < |v.pages| :: v.pages[i] == Page(false, 0, 0, 0, 0, 0)
    ensures VbarOk(v) && Residents(v.pages) == 0
  {
    NoResidents(v.pages);
  }

  lemma {:induction false} NoneAbove(v: Vbar)
    ensures v.watermark <= v.limit ==> EvictableOf(v) == 0
  {
  }

  lemma {:induction false} LoweredToOk(vs: seq<Vbar>, k: nat, v: Vbar)
    requires AllOk(vs) && k < |vs| && LoweredTo(vs[k], v)
    ensures AllOk(vs[k := v]) && AllShuffled(vs, vs[k := v])
    ensures SumResidents(vs[k := v]) == SumResidents(vs) - EvictableIn(vs[k].pages, v.watermark, vs[k].watermark)
  {
    assert VbarOk(vs[k]);
    LoweredOk(vs[k], v.watermark);
    SumsUpdate(vs, k, v);
  }

  lemma {:induction false} WatermarkOk(vs: seq<Vbar>, k: nat, v: Vbar)
    requires AllOk(vs) && k < |vs| && v.watermark <= |vs[k].pages| && vs[k].watermark <= |vs[k].pages|
    requires v == if v.watermark < vs[k].watermark then Lowered(vs[k], v.watermark)
                  else vs[k].(watermark := v.watermark)
    ensures AllOk(vs[k := v]) && AllShuffled(vs, vs[k := v])
    ensures SumResidents(vs[k := v]) == SumResidents(vs) -
              (if v.watermark < vs[k].watermark then EvictableIn(vs[k].pages, v.watermark, vs[k].watermark) else 0)
  {
    assert VbarOk(vs[k]);
    if v.watermark < vs[k].watermark { LoweredOk(vs[k], v.watermark); }
    SumsUpdate(vs, k, v);
    assert VbarOk(v);
  }

  lemma {:induction false} ReleasedOk(vs: seq<Vbar>, k: nat, v: Vbar, first: nat, end: nat)
    requires AllOk(vs) && k < |vs| && |v.pages| == |vs[k].pages| && v.watermark == vs[k].watermark
    requires v.residentCount == vs[k].residentCount + Residents(v.pages) - Residents(vs[k].pages)
    requires forall i | 0 <= i < |v.pages| ::
               v.pages[i] == if first <= i < end then Released(vs[k].pages[i], i >= v.watermark) else vs[k].pages[i]
    ensures AllOk(vs[k := v]) && AllStep(vs, vs[k := v])
    ensures SumResidents(vs[k := v]) == SumResidents(vs) + Residents(v.pages) - Residents(vs[k].pages)
  {
    assert VbarOk(vs[k]);
    SumsUpdate(vs, k, v);
    forall i | 0 <= i < |v.pages|
      ensures PageOk(v.pages[i]) && PageStep(vs[k].pages[i], v.pages[i])
      ensures v.watermark <= i && v.pages[i].resident ==> v.pages[i].pins > 0
    {
      assert PageOk(vs[k].pages[i]);
    }
    assert VbarOk(v) && VbarStep(vs[k], v);
    StepRefl(vs);
  }

  lemma {:induction false} StepRefl(vs: seq<Vbar>)
    requires AllOk(vs)
    ensures AllStep(vs, vs)
  {
    ShuffledRefl(vs);
    OnlyShuffled(vs, vs);
  }

  /** Page by page, what a call other than `vbar_free` may do. */
  ghost predicate AllStep(vs: seq<Vbar>, vs': seq<Vbar>) {
    |vs'| == |vs| && forall k | 0 <= k < |vs| :: VbarStep(vs[k], vs'[k])
  }

  ghost predicate VbarStep(v: Vbar, v': Vbar) {
    PagesStep(v.pages, v'.pages)
  }

  ghost predicate AllPinned(vs: seq<Vbar>, vs': seq<Vbar>) {
    |vs'| == |vs| && forall k | 0 <= k < |vs| :: VbarPinned(vs[k], vs'[k])
  }

  ghost predicate VbarPinned(v: Vbar, v': Vbar) {
    |v'.pages| == |v.pages| && forall i | 0 <= i < |v.pages| ::
          v'.pages[i] == v.pages[i] || v'.pages[i] == Pinned(v.pages[i])
  }

  lemma {:induction false} PinnedStep(a: seq<Vbar>, b: seq<Vbar>, c: seq<Vbar>)
    requires AllOk(a) && AllShuffled(a, b) && AllPinned(b, c)
    ensures AllStep(a, c)
  {
    forall k | 0 <= k < |a|
      ensures VbarStep(a[k], c[k])
    {
      assert VbarOk(a[k]) && VbarShuffled(a[k], b[k]) && VbarPinned(b[k], c[k]);
      forall i | 0 <= i < |a[k].pages|
        ensures PageStep(a[k].pages[i], c[k].pages[i])
      {
        ShuffledStep(a[k].pages[i], b[k].pages[i], c[k].pages[i]);
      }
    }
  }

  lemma {:induction false} OnlyShuffled(a: seq<Vbar>, b: seq<Vbar>)
    requires AllOk(a) && AllShuffled(a, b)
    ensures AllStep(a, b)
  {
    assert AllPinned(b, b);
    PinnedStep(a, b, b);
  }

  /** Eviction leaves the serials alone. */
  lemma {:induction false} SerialsKept(d: Device, m: ModelVbar, vs: seq<Vbar>, vs': seq<Vbar>)
    requires Reaped(vs, vs') && vs' == d.Values() && m in d.list && |vs| == |d.list|
    ensures exists k :: 0 <= k < |vs| && d.list[k] == m && |m.pages| == |vs[k].pages| &&
                        forall i | 0 <= i < |m.pages| :: m.pages[i].serial == vs[k].pages[i].serial
  {
    var k :| 0 <= k < |d.list| && d.list[k] == m;
    assert LoweredTo(vs[k], vs'[k]) && vs'[k] == m.Value();
  }

  /** Shuffling leaves the pins of a VBAR alone. */
  lemma {:induction false} PinsKept(d: Device, m: ModelVbar, vs: seq<Vbar>, vs': seq<Vbar>)
    requires AllShuffled(vs, vs') && vs' == d.Values() && m in d.list
    ensures exists k :: 0 <= k < |vs| == |d.list| && d.list[k] == m && |m.pages| == |vs[k].pages| &&
                        forall i | 0 <= i < |m.pages| :: m.pages[i].pins == vs[k].pages[i].pins
  {
    var k :| 0 <= k < |d.list| && d.list[k] == m;
    assert VbarShuffled(vs[k], vs'[k]) && vs'[k] == m.Value();
    forall i | 0 <= i < |m.pages|
      ensures m.pages[i].pins == vs[k].pages[i].pins
    {
      assert Shuffled(vs[k].pages[i], vs'[k].pages[i]);
    }
  }

  lemma {:induction false} ResidentsSame(s: seq<Page>, t: seq<Page>)
    requires |s| == |t| && forall i | 0 <= i < |s| :: s[i].resident == t[i].resident
    ensures Residents(s) == Residents(t)
    decreases |s|
  {
    if s != [] { ResidentsSame(s[..|s| - 1], t[..|t| - 1]); }
  }

  lemma {:induction false} PinnedOk(vs: seq<Vbar>, k: nat, v: Vbar, first: nat, end: nat)
    requires AllOk(vs) && k < |vs| && v == vs[k].(pages := v.pages) && |v.pages| == |vs[k].pages|
    requires forall i | 0 <= i < |v.pages| :: v.pages[i] == if first <= i < end then Pinned(vs[k].pages[i])
                                                            else vs[k].pages[i]
    requires forall i | first <= i < end && i < |v.pages| :: vs[k].pages[i].resident
    ensures AllOk(vs[k := v]) && AllPinned(vs, vs[k := v])
    ensures SumResidents(vs[k := v]) == SumResidents(vs)
  {
    assert VbarOk(vs[k]);
    ResidentsSame(vs[k].pages, v.pages);
    SumsUpdate(vs, k, v);
    forall i | 0 <= i < |v.pages|
      ensures PageOk(v.pages[i])
    {
      assert PageOk(vs[k].pages[i]);
    }
    assert VbarOk(v) && VbarPinned(vs[k], v);
  }

  datatype DriverResult = DriverOk | DriverOutOfMemory | DriverError

  /** What `vbar_fault` returns. */
  datatype FaultResult = Success | OutOfMemory | Error

  /** What budget and driver say about one page: what is owed, and the answers to both tries. */
  datatype Answer = Answer(deficit: int, first: DriverResult, second: DriverResult)

  predicate Granted(a: Answer) {
    a.deficit <= 0 && a.first == DriverOk
  }

  /** Neither try could succeed. */
  predicate Denied(a: Answer) {
    if a.deficit <= 0 && a.first != DriverOutOfMemory then a.first == DriverError else a.second != DriverOk
  }

  /** Nothing is left above any limit. */
  ghost predicate AtLimits(vs: seq<Vbar>) {
    forall k | 0 <= k < |vs| :: vs[k].watermark <= vs[k].limit
  }

  lemma {:induction false} ReapedAtLimits(vs: seq<Vbar>, vs': seq<Vbar>)
    requires Reaped(vs, vs')
    ensures AtLimits(vs) ==> AtLimits(vs')
  {
  }

  lemma {:induction false} AboveLimits(d: Device)
    ensures (forall v | v in d.list :: v.watermark <= v.limit) ==> AtLimits(d.Values())
  {
  }

  /** `spent` pages cover every absent page below watermark and target. */
  ghost predicate PaidFor(m: Vbar, target: nat, spent: int) {
    m.watermark <= |m.pages| && AbsentBelow(m.pages, Min(target, m.watermark)) <= spent
  }

  ghost predicate SameSerials(pages: seq<Page>, pages': seq<Page>) {
    |pages'| == |pages| && forall i | 0 <= i < |pages| :: pages'[i].serial == pages[i].serial
  }

  /** Pages [first, end) got one pin more if `more`; no other pin changed. */
  ghost predicate PinsAdded(pages: seq<Page>, pages': seq<Page>, first: nat, end: nat, more: bool) {
    |pages'| == |pages| && forall i | 0 <= i < |pages| ::
          pages'[i].pins == pages[i].pins + (if more && first <= i < end then 1 else 0)
  }

  /** Nothing but pages [first, end) of `m` changed. */
  ghost predicate OnlyRange(vs: seq<Vbar>, vs': seq<Vbar>, list: seq<ModelVbar>, m: ModelVbar, first: nat, end: nat) {
    && |vs| == |vs'| == |list|
    && forall k | 0 <= k < |list| ::
         if list[k] == m then RangeOnly(vs[k], vs'[k], first, end) else vs'[k] == vs[k]
  }

  ghost predicate RangeOnly(v: Vbar, v': Vbar, first: nat, end: nat) {
    && |v'.pages| == |v.pages| && v'.watermark == v.watermark && v'.limit == v.limit
    && forall i | 0 <= i < |v.pages| && !(first <= i < end) :: v'.pages[i] == v.pages[i]
  }

  ghost predicate SomeDenied(answers: nat -> Answer, first: nat, end: nat) {
    exists i :: first <= i < end && Denied(answers(i))
  }

  /** From `vs` to `vs'` one page of `m` was loaded, and nothing else changed. */
  ghost predicate OnlyLoaded(vs: seq<Vbar>, vs': seq<Vbar>, list: seq<ModelVbar>, m: ModelVbar, page: nat) {
    && |vs| == |vs'| == |list|
    && forall k | 0 <= k < |list| ::
         if list[k] != m then vs'[k] == vs[k]
         else page < |vs[k].pages| && SameBut(vs[k], vs'[k], vs[k].pages[page := Loaded(vs[k].pages[page])])
  }

  ghost predicate SameBut(v: Vbar, v': Vbar, pages: seq<Page>) {
    v'.pages == pages && v'.watermark == v.watermark && v'.limit == v.limit
  }

  /** From `vs` to `vs'` the absent pages of [first, end) were loaded, and nothing else changed. */
  ghost predicate LoadedRange(vs: seq<Vbar>, vs': seq<Vbar>, list: seq<ModelVbar>, m: ModelVbar, first: nat, end: nat) {
    && |vs| == |vs'| == |list|
    && forall k | 0 <= k < |list| ::
         if list[k] == m then RangeLoaded(vs[k], vs'[k], first, end) else vs'[k] == vs[k]
  }

  ghost predicate RangeLoaded(v: Vbar, v': Vbar, first: nat, end: nat) {
    && |v'.pages| == |v.pages| && v'.watermark == v.watermark && v'.limit == v.limit
    && forall i | 0 <= i < |v.pages| ::
         v'.pages[i] == if first <= i < end && !v.pages[i].resident then Loaded(v.pages[i]) else v.pages[i]
  }

  lemma {:induction false} LoadedNothing(vs: seq<Vbar>, list: seq<ModelVbar>, m: ModelVbar, first: nat)
    requires |vs| == |list|
    ensures LoadedRange(vs, vs, list, m, first, first)
  {
  }

  lemma {:induction false} LoadedMore(vs: seq<Vbar>, now: seq<Vbar>, vs': seq<Vbar>, list: seq<ModelVbar>, m: ModelVbar,
                                      first: nat, page: nat)
    requires LoadedRange(vs, now, list, m, first, page) && OnlyLoaded(now, vs', list, m, page) && first <= page
    requires forall k | 0 <= k < |list| && list[k] == m && page < |now[k].pages| :: !now[k].pages[page].resident
    ensures LoadedRange(vs, vs', list, m, first, page + 1)
  {
    forall k | 0 <= k < |list|
      ensures if list[k] == m then RangeLoaded(vs[k], vs'[k], first, page + 1) else vs'[k] == vs[k]
    {
      if list[k] == m { assert RangeLoaded(vs[k], now[k], first, page); }
    }
  }

  lemma {:induction false} LoadedAlready(vs: seq<Vbar>, now: seq<Vbar>, list: seq<ModelVbar>, m: ModelVbar,
                                         first: nat, page: nat)
    requires LoadedRange(vs, now, list, m, first, page) && first <= page
    requires forall k | 0 <= k < |list| && list[k] == m && page < |now[k].pages| :: now[k].pages[page].resident
    ensures LoadedRange(vs, now, list, m, first, page + 1)
  {
    forall k | 0 <= k < |list| && list[k] == m
      ensures RangeLoaded(vs[k], now[k], first, page + 1)
    {
      assert RangeLoaded(vs[k], now[k], first, page);
    }
  }

  lemma {:induction false} LoadedEmpty(vs: seq<Vbar>, vs': seq<Vbar>, list: seq<ModelVbar>, m: ModelVbar, first: nat,
                                       end: nat, upto: nat)
    requires LoadedRange(vs, vs', list, m, first, upto) && (upto == end || (upto == first && end <= first))
    ensures LoadedRange(vs, vs', list, m, first, end)
  {
    forall k | 0 <= k < |list| && list[k] == m
      ensures RangeLoaded(vs[k], vs'[k], first, end)
    {
      assert RangeLoaded(vs[k], vs'[k], first, upto);
    }
  }

  /** Byte `x` of a range faulted in: its page is resident, pinned once more, below the watermark and signed. */
  ghost predicate ByteReady(was: seq<Page>, m: Vbar, offset: nat, signature: seq<nat>, x: nat) {
    var i := PageNr(x);
    && i < |m.pages| == |was| && i < m.watermark && PageNr(offset) <= i < PageNr(offset) + |signature|
    && m.pages[i].resident && m.pages[i].pins == was[i].pins + 1
    && signature[i - PageNr(offset)] == Signature(m.pages[i])
  }

  lemma {:induction false} LoadedOk(v: Vbar, page: nat)
    requires VbarOk(v) && page < v.watermark && !v.pages[page].resident
    ensures var v' := v.(pages := v.pages[page := Loaded(v.pages[page])], residentCount := v.residentCount + 1);
            VbarOk(v') && VbarShuffled(v, v') && Residents(v'.pages) == Residents(v.pages) + 1
  {
    ResidentsUpdate(v.pages, page, Loaded(v.pages[page]));
    assert PageOk(v.pages[page]);
  }

  lemma {:induction false} UpdateShuffled(vs: seq<Vbar>, k: nat, v: Vbar)
    requires k < |vs| && VbarShuffled(vs[k], v)
    ensures AllShuffled(vs, vs[k := v])
    ensures AllOk(vs) && VbarOk(v) ==> AllOk(vs[k := v])
  {
  }

  lemma {:induction false} ReapedShuffled(vs: seq<Vbar>, vs': seq<Vbar>)
    requires AllOk(vs) && Reaped(vs, vs')
    ensures AllShuffled(vs, vs')
  {
    ReapedOk(vs, vs');
  }

  /** Eviction leaves every page below the new watermark alone. */
  lemma {:induction false} KeptBelow(d: Device, m: ModelVbar, vs: seq<Vbar>, vs': seq<Vbar>, end: nat)
    requires Reaped(vs, vs') && vs' == d.Values() && m in d.list && |vs| == |d.list| && end <= m.watermark
    ensures exists k :: 0 <= k < |vs| && d.list[k] == m && |m.pages| == |vs[k].pages| && m.watermark <= |m.pages| &&
                        forall i | 0 <= i < end :: m.pages[i] == vs[k].pages[i]
  {
    var k :| 0 <= k < |d.list| && d.list[k] == m;
    assert LoweredTo(vs[k], vs'[k]) && vs'[k] == m.Value();
  }

  lemma {:induction false} CursorLength(m: Vbar, cursor: nat, spent: nat, bound: nat)
    requires CursorOk(m, cursor, spent, bound)
    ensures m.watermark <= |m.pages|
  {
  }

  lemma {:induction false} CursorStart(m: Vbar, cursor: nat)
    requires m.watermark <= |m.pages| && (cursor < m.watermark ==> !m.pages[cursor].resident)
    requires AbsentBelow(m.pages, Min(cursor, m.watermark)) == AbsentBelow(m.pages, Min(0, m.watermark))
    ensures CursorOk(m, cursor, 0, m.watermark)
  {
  }

  /** A surplus that pays for every absent page is not used up short of the end. */
  lemma {:induction false} EnoughSurplus(m: Vbar, target: nat, cursor: nat, spent: nat, surplus: int)
    requires CursorOk(m, cursor, spent, m.watermark) && spent == AbsentBelow(m.pages, Min(cursor, m.watermark))
    requires AbsentBelow(m.pages, Min(target, m.watermark)) * VBAR_PAGE_SIZE <= surplus
    ensures cursor < target && cursor < m.watermark ==> surplus - spent * VBAR_PAGE_SIZE >= VBAR_PAGE_SIZE
  {
    if cursor < target && cursor < m.watermark {
      AbsentMono(m.pages, cursor + 1, Min(target, m.watermark));
      assert AbsentBelow(m.pages, cursor + 1) == spent + 1;
      assert (spent + 1) * VBAR_PAGE_SIZE <= AbsentBelow(m.pages, Min(target, m.watermark)) * VBAR_PAGE_SIZE;
    }
  }

  lemma {:induction false} CursorDone(m: Vbar, target: nat, cursor: nat, spent: nat)
    requires CursorOk(m, cursor, spent, m.watermark)
    ensures m.watermark <= |m.pages|
    ensures cursor >= target || cursor >= m.watermark ==> AbsentBelow(m.pages, Min(target, m.watermark)) <= spent
  {
    if cursor >= target || cursor >= m.watermark {
      AbsentMono(m.pages, Min(target, m.watermark), Min(cursor, m.watermark));
    }
  }

  lemma {:induction false} MemberOk(d: Device, m: ModelVbar)
    requires d.Valid() && m in d.list
    ensures VbarOk(m.Value()) && m.watermark <= |m.pages|
  {
    var k :| 0 <= k < |d.list| && d.list[k] == m;
    assert VbarOk(d.Values()[k]);
  }

  /** The cursor stands on an absent page or past the watermark, and every absent page before it was paid for. */
  ghost predicate CursorOk(m: Vbar, cursor: nat, spent: nat, bound: nat) {
    && m.watermark <= |m.pages| && bound <= m.watermark
    && (cursor < m.watermark ==> !m.pages[cursor].resident)
    && AbsentBelow(m.pages, Min(cursor, bound)) <= spent
  }

  lemma {:induction false} CursorBound(m: Vbar, cursor: nat, spent: nat, bound: nat)
    requires CursorOk(m, cursor, spent, m.watermark) && bound <= m.watermark
    ensures CursorOk(m, cursor, spent, bound)
  {
    AbsentMono(m.pages, Min(cursor, bound), Min(cursor, m.watermark));
  }

  /** Evicting the page just below the watermark does not disturb the cursor. */
  lemma {:induction false} CursorEvict(m: Vbar, m': Vbar, cursor: nat, spent: nat, bound: nat)
    requires CursorOk(m, cursor, spent, bound) && m'.watermark == m.watermark && |m'.pages| == |m.pages|
    requires forall i | 0 <= i < bound :: m'.pages[i] == m.pages[i]
    requires forall i | 0 <= i < |m.pages| :: m'.pages[i].resident ==> m.pages[i].resident
    ensures CursorOk(m', cursor, spent, bound)
  {
    AbsentSame(m.pages, m'.pages, Min(cursor, bound));
  }

  lemma {:induction false} OkAt(vs: seq<Vbar>, i: nat)
    requires AllOk(vs) && i < |vs|
    ensures VbarOk(vs[i]) && vs[i].watermark <= |vs[i].pages|
  {
  }

  lemma {:induction false} LoweredFacts(v: Vbar, v': Vbar)
    requires LoweredTo(v, v')
    ensures v'.watermark <= v.watermark <= |v.pages|
    ensures EvictableOf(v') + EvictableIn(v.pages, v'.watermark, v.watermark) == EvictableOf(v)
  {
    EvictableLowered(v, v'.watermark);
  }

  lemma {:induction false} ReapedRefl(vs: seq<Vbar>)
    requires AllOk(vs)
    ensures Reaped(vs, vs)
  {
    forall k | 0 <= k < |vs|
      ensures LoweredTo(vs[k], vs[k])
    {
      assert VbarOk(vs[k]);
      LoweredSame(vs[k]);
    }
  }

  /** Lowering the next VBAR once all before it are at their limit. */
  lemma {:induction false} ReapStep(was: seq<Vbar>, before: seq<Vbar>, i: nat, v: Vbar)
    requires AllOk(was) && Reaped(was, before) && AllOk(before) && i < |was| == |before|
    requires before[i] == was[i] && LoweredTo(was[i], v)
    requires forall k | 0 <= k < i :: before[k].watermark <= before[k].limit
    requires forall k | i <= k < |was| :: before[k] == was[k]
    ensures Reaped(was, before[i := v]) && AllOk(before[i := v])
    ensures Residents(v.pages) == Residents(before[i].pages) - EvictableIn(was[i].pages, v.watermark, was[i].watermark)
  {
    LoweredOk(was[i], v.watermark);
    assert VbarOk(was[i]) && VbarOk(v);
  }
}
