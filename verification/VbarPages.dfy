/**
 Pages of a VBAR (a model's virtual range that is loaded page by page) as values,
 and what every operation on them keeps.
 */
module VbarPages {

  const VBAR_PAGE_SIZE: nat := 33554432

  /**
   One entry of the residency map.  `evictions`, `faults` and `unpins` are not in
   the program: they count what happened to the page.
   */
  datatype Page = Page(resident: bool, pins: nat, serial: nat, evictions: nat, faults: nat, unpins: nat)

  datatype Vbar = Vbar(pages: seq<Page>, watermark: nat, limit: nat, residentCount: int)

  predicate Evictable(p: Page) {
    p.resident && p.pins == 0
  }

  function Evicted(p: Page): Page {
    p.(resident := false, evictions := p.evictions + 1)
  }

  function Loaded(p: Page): Page {
    p.(resident := true, serial := p.serial + 1)
  }

  function Pinned(p: Page): Page {
    p.(pins := p.pins + 1, faults := p.faults + 1)
  }

  /** One `vbar_unpin` of the page, which ignores a page that is not pinned. */
  function Unpinned(p: Page): Page {
    p.(pins := if p.pins > 0 then p.pins - 1 else 0, unpins := p.unpins + 1)
  }

  // ---------------------------------------------------------------- one page over time

  /** The serial counts loads; pins cover the faults not yet unpinned; a pinned page is resident. */
  predicate PageOk(p: Page) {
    && p.serial == p.evictions + (if p.resident then 1 else 0)
    && p.pins + p.unpins >= p.faults
    && (p.pins > 0 ==> p.resident)
  }

  /** A page some successful fault still covers. */
  predicate Outstanding(p: Page) {
    p.faults > p.unpins
  }

  /** Loading and evicting: pins are untouched and a pinned page is left alone. */
  predicate Shuffled(p: Page, p': Page) {
    && p'.pins == p.pins && p'.faults == p.faults && p'.unpins == p.unpins
    && p.serial <= p'.serial && p.evictions <= p'.evictions
    && (p.pins > 0 ==> p' == p)
  }

  /** A successful fault adds a pin, an unpin takes one away if there is one, other calls leave them. */
  predicate PinStep(p: Page, p': Page) {
    || (p'.faults == p.faults && p'.unpins == p.unpins && p'.pins == p.pins)
    || (p'.faults == p.faults + 1 && p'.unpins == p.unpins && p'.pins == p.pins + 1)
    || (p'.faults == p.faults && p'.unpins == p.unpins + 1 && p'.pins == if p.pins > 0 then p.pins - 1 else 0)
  }

  /** What any call but `vbar_free` may do to a page: one pinned before and after is left alone. */
  predicate PageStep(p: Page, p': Page) {
    && p.serial <= p'.serial && p.evictions <= p'.evictions && PinStep(p, p')
    && (p.pins > 0 && p'.pins > 0 ==> p'.resident && p'.serial == p.serial && p'.evictions == p.evictions)
  }

  ghost predicate PagesStep(pages: seq<Page>, pages': seq<Page>) {
    |pages'| == |pages| && forall i | 0 <= i < |pages| :: PageStep(pages[i], pages'[i])
  }

  lemma {:induction false} PagesSame(pages: seq<Page>)
    requires forall i | 0 <= i < |pages| :: PageOk(pages[i])
    ensures PagesStep(pages, pages)
  {
  }

  lemma {:induction false} ShuffledStep(p: Page, p': Page, p'': Page)
    requires PageOk(p) && Shuffled(p, p') && (p'' == p' || p'' == Pinned(p'))
    ensures PageStep(p, p'')
  {
  }

  /** The history of one page, call by call. */
  ghost predicate History(h: seq<Page>) {
    && (forall i | 0 <= i < |h| :: PageOk(h[i]))
    && forall i | 0 <= i < |h| - 1 :: PageStep(h[i], h[i + 1])
  }

  lemma {:induction false} HistoryGrows(h: seq<Page>, i: nat, j: nat)
    requires History(h) && i <= j < |h|
    ensures h[i].serial <= h[j].serial && h[i].evictions <= h[j].evictions
    decreases j
  {
    if i < j {
      HistoryGrows(h, i, j - 1);
      assert PageStep(h[j - 1], h[j]);
    }
  }

  const SIGNATURE_RANGE: nat := 0x1_0000_0000

  /** What a fault reports for a page: its serial, cut to 32 bits. */
  function Signature(p: Page): nat {
    p.serial % SIGNATURE_RANGE
  }

  /**
   Equal signatures prove the cached data valid.  If two successful faults saw the
   page resident with the same signature, and fewer than 2^32 loads lie between them,
   then at every point in between it was resident with the same serial: it was
   neither evicted nor loaded again.
   */
  lemma {:induction false} SignatureProof(h: seq<Page>, i: nat, k: nat, j: nat)
    requires History(h) && i <= k <= j < |h|
    requires h[i].resident && h[j].resident && Signature(h[i]) == Signature(h[j])
    requires h[j].serial - h[i].serial < SIGNATURE_RANGE
    ensures h[k].resident && h[k].serial == h[i].serial && h[k].evictions == h[i].evictions
  {
    HistoryGrows(h, i, k);
    HistoryGrows(h, k, j);
    assert h[i].serial == h[j].serial;
    assert PageOk(h[i]) && PageOk(h[k]) && PageOk(h[j]);
  }

  /** A page that is evicted and loaded again time after time. */
  function Cycling(loads: nat): (h: seq<Page>)
    ensures |h| == 2 * loads + 1
  {
    seq(2 * loads + 1, t requires 0 <= t =>
      Page(t % 2 == 0, 0, 1 + t / 2, t / 2 + t % 2, 0, 0))
  }

  /** The bound is sharp: after 2^32 loads the signature is the same, and the page was gone in between. */
  lemma {:induction false} SignatureWraps()
    ensures var h, n := Cycling(SIGNATURE_RANGE), 2 * SIGNATURE_RANGE;
            && History(h) && h[0].resident && h[n].resident && !h[1].resident
            && Signature(h[0]) == Signature(h[n]) && h[n].serial - h[0].serial == SIGNATURE_RANGE
  {
  }

  /** As long as it stays pinned, a page keeps its contents. */
  lemma {:induction false} PinnedKept(h: seq<Page>, i: nat, j: nat)
    requires History(h) && i <= j < |h|
    requires forall k | i <= k <= j :: h[k].pins > 0
    ensures h[j].resident && h[j].serial == h[i].serial && h[j].evictions == h[i].evictions
    decreases j
  {
    assert PageOk(h[i]);
    if i < j {
      PinnedKept(h, i, j - 1);
      assert PageStep(h[j - 1], h[j]);
    }
  }

  /** As long as some fault covers it, a page keeps its contents. */
  lemma {:induction false} OutstandingKept(h: seq<Page>, i: nat, j: nat)
    requires History(h) && i <= j < |h|
    requires forall k | i <= k <= j :: Outstanding(h[k])
    ensures h[j].resident && h[j].serial == h[i].serial && h[j].evictions == h[i].evictions
  {
    forall k | i <= k <= j ensures h[k].pins > 0 {
      assert Outstanding(h[k]) && PageOk(h[k]);
    }
    PinnedKept(h, i, j);
  }

  /** As long as unpins do not outrun faults, each unpin undoes one fault. */
  lemma {:induction false} PinsBalance(h: seq<Page>, i: nat, j: nat)
    requires History(h) && i <= j < |h|
    requires forall k | i <= k <= j :: h[k].unpins - h[i].unpins <= h[i].pins + h[k].faults - h[i].faults
    ensures h[j].pins == h[i].pins + (h[j].faults - h[i].faults) - (h[j].unpins - h[i].unpins)
    decreases j
  {
    if i < j {
      PinsBalance(h, i, j - 1);
      assert PageStep(h[j - 1], h[j]);
    }
  }

  /** A page unpinned as often as it was faulted, since it was last not pinned, may be evicted again. */
  lemma {:induction false} UnpinnedAsFaulted(h: seq<Page>, i: nat, j: nat)
    requires History(h) && i <= j < |h| && h[i].pins == 0
    requires forall k | i <= k <= j :: h[k].unpins - h[i].unpins <= h[k].faults - h[i].faults
    requires h[j].unpins - h[i].unpins == h[j].faults - h[i].faults
    ensures h[j].pins == 0 && (h[j].resident ==> Evictable(h[j]))
  {
    PinsBalance(h, i, j);
  }

  // ---------------------------------------------------------------- all pages of a VBAR over time

  /** The pages of one VBAR after each of a run of calls. */
  ghost predicate Recorded(h: seq<seq<Page>>) {
    && |h| > 0
    && (forall t | 0 <= t < |h| :: |h[t]| == |h[0]|)
    && (forall t, i | 0 <= t < |h| && 0 <= i < |h[t]| :: PageOk(h[t][i]))
    && forall t | 0 <= t < |h| - 1 :: PagesStep(h[t], h[t + 1])
  }

  function Column(h: seq<seq<Page>>, i: nat): (c: seq<Page>)
    requires forall t | 0 <= t < |h| :: i < |h[t]|
    ensures |c| == |h| && forall t | 0 <= t < |h| :: c[t] == h[t][i]
  {
    seq(|h|, t requires 0 <= t < |h| => h[t][i])
  }

  /** Each page of a recorded run has a history. */
  lemma {:induction false} ColumnHistory(h: seq<seq<Page>>, i: nat)
    requires Recorded(h) && i < |h[0]|
    ensures (forall t | 0 <= t < |h| :: i < |h[t]|) && History(Column(h, i))
  {
    assert forall t | 0 <= t < |h| :: |h[t]| == |h[0]|;
    var c := Column(h, i);
    forall t | 0 <= t < |c| - 1 ensures PageStep(c[t], c[t + 1]) {
      assert PagesStep(h[t], h[t + 1]);
    }
  }

  lemma {:induction false} RecordedFirst(pages: seq<Page>)
    requires forall i | 0 <= i < |pages| :: PageOk(pages[i])
    ensures Recorded([pages])
  {
  }

  lemma {:induction false} RecordedMore(h: seq<seq<Page>>, pages: seq<Page>)
    requires Recorded(h) && PagesStep(h[|h| - 1], pages)
    requires forall i | 0 <= i < |pages| :: PageOk(pages[i])
    ensures Recorded(h + [pages])
  {
    var h' := h + [pages];
    forall t | 0 <= t < |h'| - 1 ensures PagesStep(h'[t], h'[t + 1]) {
      assert t < |h| - 1 ==> PagesStep(h[t], h[t + 1]);
    }
  }

  /** A page pinned throughout a recorded run was neither evicted nor loaded again. */
  lemma {:induction false} PinnedThroughout(h: seq<seq<Page>>, i: nat, t: nat)
    requires Recorded(h) && i < |h[0]| && t < |h|
    requires forall u | 0 <= u <= t :: i < |h[u]| && h[u][i].pins > 0
    ensures i < |h[t]| && h[t][i].resident && h[t][i].serial == h[0][i].serial && h[t][i].evictions == h[0][i].evictions
  {
    ColumnHistory(h, i);
    PinnedKept(Column(h, i), 0, t);
  }

  // ---------------------------------------------------------------- counting

  function Residents(s: seq<Page>): nat {
    if s == [] then 0 else Residents(s[..|s| - 1]) + (if s[|s| - 1].resident then 1 else 0)
  }

  /** Pages of [lo, hi) that may be evicted. */
  function EvictableIn(s: seq<Page>, lo: nat, hi: nat): nat
    requires hi <= |s|
    decreases hi
  {
    if hi <= lo then 0 else EvictableIn(s, lo, hi - 1) + (if Evictable(s[hi - 1]) then 1 else 0)
  }

  function EvictablePages(s: seq<Page>, lo: nat, hi: nat): set<nat>
    requires hi <= |s|
  {
    set i: nat | lo <= i < hi && s[i].resident && s[i].pins == 0
  }

  /** The number of pages that eviction may take is that of the resident pages with no pin. */
  lemma {:induction false} EvictableSet(s: seq<Page>, lo: nat, hi: nat)
    requires hi <= |s|
    ensures EvictableIn(s, lo, hi) == |EvictablePages(s, lo, hi)|
    decreases hi
  {
    if hi > lo {
      EvictableSet(s, lo, hi - 1);
      if s[hi - 1].resident && s[hi - 1].pins == 0 {
        assert EvictablePages(s, lo, hi) == EvictablePages(s, lo, hi - 1) + {hi - 1};
      } else {
        assert EvictablePages(s, lo, hi) == EvictablePages(s, lo, hi - 1);
      }
    } else {
      assert EvictablePages(s, lo, hi) == {};
    }
  }

  function AbsentPages(s: seq<Page>, n: nat): set<nat>
    requires n <= |s|
  {
    set i: nat | i < n && !s[i].resident
  }

  /** Likewise for the absent pages. */
  lemma {:induction false} AbsentSet(s: seq<Page>, n: nat)
    requires n <= |s|
    ensures AbsentBelow(s, n) == |AbsentPages(s, n)|
  {
    if n > 0 {
      AbsentSet(s, n - 1);
      assert AbsentPages(s, n) == AbsentPages(s, n - 1) + if s[n - 1].resident then {} else {n - 1};
    } else {
      assert AbsentPages(s, n) == {};
    }
  }

  /** A resident count is the number of resident pages. */
  lemma {:induction false} ResidentSet(s: seq<Page>)
    ensures Residents(s) == |set i: nat | i < |s| && s[i].resident|
  {
    if s != [] {
      var n := |s| - 1;
      ResidentSet(s[..n]);
      var before := set i: nat | i < n && s[..n][i].resident;
      assert (set i: nat | i < |s| && s[i].resident) == if s[n].resident then before + {n} else before;
    }
  }

  function AbsentBelow(s: seq<Page>, n: nat): nat
    requires n <= |s|
  {
    if n == 0 then 0 else AbsentBelow(s, n - 1) + (if s[n - 1].resident then 0 else 1)
  }

  lemma {:induction false} ResidentsUpdate(s: seq<Page>, i: nat, p: Page)
    requires i < |s|
    ensures Residents(s[i := p]) == Residents(s) + (if p.resident then 1 else 0) - (if s[i].resident then 1 else 0)
    decreases |s|
  {
    var n := |s| - 1;
    if i < n {
      ResidentsUpdate(s[..n], i, p);
      assert s[i := p][..n] == s[..n][i := p];
    } else {
      assert s[i := p][..n] == s[..n];
    }
  }

  lemma {:induction false} AbsentSame(s: seq<Page>, t: seq<Page>, n: nat)
    requires n <= |s| && n <= |t| && forall i | 0 <= i < n :: s[i].resident == t[i].resident
    ensures AbsentBelow(s, n) == AbsentBelow(t, n)
    decreases n
  {
    if n > 0 { AbsentSame(s, t, n - 1); }
  }

  lemma {:induction false} AbsentMono(s: seq<Page>, m: nat, n: nat)
    requires m <= n <= |s|
    ensures AbsentBelow(s, m) <= AbsentBelow(s, n)
    decreases n
  {
    if m < n { AbsentMono(s, m, n - 1); }
  }

  lemma {:induction false} EvictableSame(s: seq<Page>, t: seq<Page>, lo: nat, hi: nat)
    requires hi <= |s| && hi <= |t| && forall i | lo <= i < hi :: s[i] == t[i]
    ensures EvictableIn(s, lo, hi) == EvictableIn(t, lo, hi)
    decreases hi
  {
    if lo < hi { EvictableSame(s, t, lo, hi - 1); }
  }

  lemma {:induction false} EvictableSplit(s: seq<Page>, lo: nat, mid: nat, hi: nat)
    requires lo <= mid <= hi <= |s|
    ensures EvictableIn(s, lo, hi) == EvictableIn(s, lo, mid) + EvictableIn(s, mid, hi)
    decreases hi
  {
    if mid < hi { EvictableSplit(s, lo, mid, hi - 1); }
  }

  // ---------------------------------------------------------------- one VBAR

  /** What holds of a VBAR between calls. */
  ghost predicate VbarOk(v: Vbar) {
    && v.watermark <= |v.pages|
    && v.residentCount == Residents(v.pages)
    && (forall i | 0 <= i < |v.pages| :: PageOk(v.pages[i]))
    && forall i | v.watermark <= i < |v.pages| && v.pages[i].resident :: v.pages[i].pins > 0
  }

  /** The VBAR after its watermark was lowered to `w`, evicting what it passed. */
  function Lowered(v: Vbar, w: nat): Vbar
    requires w <= v.watermark <= |v.pages|
  {
    v.(pages := seq(|v.pages|, i requires 0 <= i < |v.pages| =>
                  if w <= i < v.watermark && Evictable(v.pages[i]) then Evicted(v.pages[i]) else v.pages[i]),
       watermark := w,
       residentCount := v.residentCount - EvictableIn(v.pages, w, v.watermark))
  }

  /** `mod1` asked to free and not to unpin. */
  function FreePage(v: Vbar, i: nat): Vbar
    requires i < |v.pages|
  {
    if Evictable(v.pages[i]) then v.(pages := v.pages[i := Evicted(v.pages[i])], residentCount := v.residentCount - 1)
    else v
  }

  lemma {:induction false} LoweredSame(v: Vbar)
    requires v.watermark <= |v.pages|
    ensures Lowered(v, v.watermark) == v
  {
    assert Lowered(v, v.watermark).pages == v.pages;
  }

  lemma {:induction false} LoweredNext(v: Vbar, w: nat)
    requires 0 < w <= v.watermark <= |v.pages|
    ensures Lowered(v, w).pages[w - 1] == v.pages[w - 1]
    ensures FreePage(Lowered(v, w), w - 1).(watermark := w - 1) == Lowered(v, w - 1)
  {
    EvictableSplit(v.pages, w - 1, w, v.watermark);
    assert EvictableIn(v.pages, w - 1, w) ==
             EvictableIn(v.pages, w - 1, w - 1) + (if Evictable(v.pages[w - 1]) then 1 else 0);
    assert FreePage(Lowered(v, w), w - 1).pages == Lowered(v, w - 1).pages;
  }

  lemma {:induction false} FreePageOk(v: Vbar, i: nat)
    requires i < |v.pages| && v.watermark <= |v.pages| && v.residentCount == Residents(v.pages)
    requires forall k | 0 <= k < |v.pages| :: PageOk(v.pages[k])
    ensures var v' := FreePage(v, i);
            && v'.residentCount == Residents(v'.pages)
            && (forall k | 0 <= k < |v'.pages| :: PageOk(v'.pages[k]))
            && (v'.pages[i].resident ==> v'.pages[i].pins > 0)
  {
    ResidentsUpdate(v.pages, i, Evicted(v.pages[i]));
  }

  lemma {:induction false} LoweredShuffled(v: Vbar, w: nat)
    requires w <= v.watermark <= |v.pages|
    ensures forall i | 0 <= i < |v.pages| :: Shuffled(v.pages[i], Lowered(v, w).pages[i])
  {
  }

  lemma {:induction false} LoweredKeeps(v: Vbar, w: nat)
    requires VbarOk(v) && w <= v.watermark
    ensures VbarOk(Lowered(v, w))
    decreases v.watermark - w
  {
    hide Lowered, PageOk;
    if w == v.watermark {
      LoweredSame(v);
    } else {
      LoweredKeeps(v, w + 1);
      LoweredNext(v, w + 1);
      LoweredShape(v, w + 1);
      FreePageOk(Lowered(v, w + 1), w);
    }
  }

  lemma {:induction false} LoweredShape(v: Vbar, w: nat)
    requires w <= v.watermark <= |v.pages|
    ensures |Lowered(v, w).pages| == |v.pages| && Lowered(v, w).watermark == w
  {
  }

  lemma {:induction false} LoweredOk(v: Vbar, w: nat)
    requires VbarOk(v) && w <= v.watermark
    ensures VbarOk(Lowered(v, w))
    ensures forall i | 0 <= i < |v.pages| :: Shuffled(v.pages[i], Lowered(v, w).pages[i])
  {
    LoweredKeeps(v, w);
    LoweredShuffled(v, w);
  }
}
