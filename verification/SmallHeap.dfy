/**
 The offset search of the sub-page heap (`consider_small_interval` and
 `small_allocation_offset`): a sweep over intervals that are not kept in order.
 */
module SmallHeap {
  import opened Basics
  import opened GraphTables
  import opened GraphSearch

  const SIZE_MAX: nat := 0xFFFF_FFFF_FFFF_FFFF

  /** Whole pages around an offset. */
  function PageUp(x: nat): nat { PagesOf(x) * MG_PAGE }

  /** The pages an escaped block lies on, as one interval. */
  function SpanOf(b: Interval): Interval {
    var first := b.offset / MG_PAGE * MG_PAGE;
    Interval(first, PageUp(b.offset + b.bytes) - first)
  }

  /** Whole pages, the first and the last of which hold bytes of the block. */
  lemma {:induction false} SpanIs(b: Interval)
    ensures var i := SpanOf(b);
            && i.offset % MG_PAGE == 0 && i.bytes % MG_PAGE == 0
            && i.offset <= b.offset < i.offset + MG_PAGE
            && b.offset + b.bytes <= i.offset + i.bytes < b.offset + b.bytes + MG_PAGE
  {
    var first, end := b.offset / MG_PAGE, PageUp(b.offset + b.bytes);
    assert end == (b.offset + b.bytes + MG_PAGE - 1) / MG_PAGE * MG_PAGE;
    var last := (b.offset + b.bytes + MG_PAGE - 1) / MG_PAGE;
    assert SpanOf(b).bytes == (last - first) * MG_PAGE;
    assert (last - first) * MG_PAGE % MG_PAGE == 0;
  }

  predicate Meets(offset: nat, bytes: nat, i: Interval) {
    offset < i.offset + i.bytes && i.offset < offset + bytes
  }

  /** Escaped blocks lie below the high-water mark. */
  predicate RogueBlockOk(b: Interval, size: nat) {
    b.bytes > 0 && b.offset + b.bytes <= size
  }

  lemma {:induction false} PageAligned(n: nat)
    ensures Aligned(n * MG_PAGE)
  {
    assert n * MG_PAGE == n * 2048 * MG_SMALL_ALIGN;
  }

  lemma {:induction false} SpanFacts(b: Interval, size: nat)
    requires RogueBlockOk(b, size)
    ensures SpanOf(b).offset <= b.offset && b.offset + b.bytes <= SpanOf(b).offset + SpanOf(b).bytes <= PageUp(size)
    ensures SpanOf(b).offset + SpanOf(b).bytes > size ==> SpanOf(b).offset + SpanOf(b).bytes == PageUp(size)
    ensures SpanOf(b).offset < size && Aligned(SpanOf(b).offset + SpanOf(b).bytes)
  {
    hide Aligned;
    var e := b.offset + b.bytes;
    PageAligned(PagesOf(e));
    assert PagesOf(e) <= PagesOf(size);
  }

  /** One interval met by the sweep. */
  function Consider(position: nat, offset: nat, bytes: nat, nextOffset: nat, nextEnd: nat): (nat, nat) {
    var end := offset + bytes;
    if end <= position then (nextOffset, nextEnd)
    else if offset <= position then (position, if nextEnd < end then end else nextEnd)
    else if offset < nextOffset then (offset, end)
    else if offset == nextOffset then (nextOffset, if nextEnd < end then end else nextEnd)
    else (nextOffset, nextEnd)
  }

  /** Nothing at or after `position` was seen, or the next obstacle is where the sweep says. */
  ghost predicate ObstacleOk(position: nat, size: nat, nextOffset: nat, nextEnd: nat) {
    if nextOffset == SIZE_MAX then nextEnd == 0
    else
      && position <= nextOffset < size
      && position < nextEnd <= PageUp(size) && Aligned(nextEnd)
      && (nextEnd > size ==> nextEnd == PageUp(size))
  }

  /** The stretch from `position` to the next obstacle does not meet interval [offset, end). */
  ghost predicate Clear(position: nat, nextOffset: nat, offset: nat, bytes: nat) {
    offset + bytes <= position || nextOffset <= offset || nextOffset == position
  }

  lemma {:induction false} ConsiderOk(position: nat, size: nat, offset: nat, bytes: nat, nextOffset: nat, nextEnd: nat)
    requires position < size < SIZE_MAX && bytes > 0 && offset < size && Aligned(offset + bytes)
    requires offset + bytes <= PageUp(size) && (offset + bytes > size ==> offset + bytes == PageUp(size))
    requires ObstacleOk(position, size, nextOffset, nextEnd)
    ensures var (o, e) := Consider(position, offset, bytes, nextOffset, nextEnd);
            && ObstacleOk(position, size, o, e) && o <= nextOffset
            && Clear(position, o, offset, bytes)
            && (forall x, n | Clear(position, nextOffset, x, n) :: Clear(position, o, x, n))
            && (o == if offset + bytes <= position then nextOffset else Min(nextOffset, Max(position, offset)))
            && (offset + bytes <= position || Max(position, offset) > nextOffset ==> e == nextEnd)
            && (position < offset < nextOffset ==> e == offset + bytes)
            && (offset <= position < offset + bytes || offset == nextOffset ==> e == Max(nextEnd, offset + bytes))
  {
  }

  // ---------------------------------------------------------------- one round of the sweep

  /** The gap before range `k` (after the last range: up to the high-water mark). */
  function GapStart(s: seq<SmallRange>, k: nat): nat
    requires k <= |s|
  {
    if k == 0 then 0 else s[k - 1].offset + s[k - 1].bytes
  }

  function GapEnd(s: seq<SmallRange>, size: nat, k: nat): nat
    requires k <= |s|
  {
    if k == |s| then size else s[k].offset
  }

  ghost predicate GapFits(s: seq<SmallRange>, size: nat, k: nat, bytes: nat)
    requires k <= |s|
  {
    GapStart(s, k) + bytes <= GapEnd(s, size, k)
  }

  /** Gap `k` fits and no gap that fits is smaller, nor equal and further left. */
  ghost predicate BestGap(s: seq<SmallRange>, size: nat, n: nat, k: nat, bytes: nat)
    requires k < n <= |s| + 1
  {
    && GapFits(s, size, k, bytes)
    && forall j | 0 <= j < n && GapFits(s, size, j, bytes) ::
         var lk, lj := GapEnd(s, size, k) - GapStart(s, k), GapEnd(s, size, j) - GapStart(s, j);
         lk < lj || (lk == lj && k <= j)
  }

  /** The leftmost smallest gap that fits, else the high-water mark. */
  ghost predicate BestFit(s: seq<SmallRange>, size: nat, bytes: nat, offset: nat) {
    if exists k :: 0 <= k <= |s| && GapFits(s, size, k, bytes) then
      exists k :: 0 <= k <= |s| && BestGap(s, size, |s| + 1, k, bytes) && offset == GapStart(s, k)
    else offset == size
  }

  /** In a sorted list the next obstacle after the end of range `k - 1` is range `k`. */
  ghost predicate NextIsRange(s: seq<SmallRange>, k: nat, nextOffset: nat, nextEnd: nat)
    requires k <= |s|
  {
    if k == |s| then nextOffset == SIZE_MAX
    else nextOffset == s[k].offset && nextEnd == s[k].offset + s[k].bytes
  }

  function MeetRanges(position: nat, s: seq<SmallRange>, nextOffset: nat, nextEnd: nat): (nat, nat) {
    if s == [] then (nextOffset, nextEnd)
    else
      var next := Consider(position, s[0].offset, s[0].bytes, nextOffset, nextEnd);
      MeetRanges(position, s[1..], next.0, next.1)
  }

  function MeetRogues(position: nat, s: seq<Interval>, nextOffset: nat, nextEnd: nat): (nat, nat) {
    if s == [] then (nextOffset, nextEnd)
    else
      var next := Consider(position, SpanOf(s[0]).offset, SpanOf(s[0]).bytes, nextOffset, nextEnd);
      MeetRogues(position, s[1..], next.0, next.1)
  }

  /** Ranges first, then the pages of escaped blocks, in list order. */
  function Obstacle(position: nat, ranges: seq<SmallRange>, rogues: seq<Interval>): (nat, nat) {
    var (o, e) := MeetRanges(position, ranges, SIZE_MAX, 0);
    MeetRogues(position, rogues, o, e)
  }

  method NextObstacle(position: nat, size: nat, ranges: seq<SmallRange>, rogues: seq<Interval>)
    returns (nextOffset: nat, nextEnd: nat)
    requires position < size < SIZE_MAX
    requires SmallSorted(ranges) && SmallWithin(ranges, size)
    requires forall b | b in rogues :: RogueBlockOk(b, size)
    ensures (nextOffset, nextEnd) == Obstacle(position, ranges, rogues)
    ensures ObstacleOk(position, size, nextOffset, nextEnd)
    ensures forall r | r in ranges :: Clear(position, nextOffset, r.offset, r.bytes)
    ensures forall b | b in rogues :: Clear(position, nextOffset, SpanOf(b).offset, SpanOf(b).bytes)
    ensures rogues == [] ==>
              forall k | 0 <= k <= |ranges| && position == GapStart(ranges, k) ::
                    NextIsRange(ranges, k, nextOffset, nextEnd)
  {
    hide Aligned, SpanOf;
    nextOffset, nextEnd := SIZE_MAX, 0;
    var i := 0;
    while i < |ranges|
      invariant 0 <= i <= |ranges|
      invariant MeetRanges(position, ranges[i..], nextOffset, nextEnd) == MeetRanges(position, ranges, SIZE_MAX, 0)
      invariant ObstacleOk(position, size, nextOffset, nextEnd)
      invariant forall j | 0 <= j < i :: Clear(position, nextOffset, ranges[j].offset, ranges[j].bytes)
      invariant forall k | 0 <= k <= |ranges| && position == GapStart(ranges, k) ::
                  if k < i then NextIsRange(ranges, k, nextOffset, nextEnd) else nextOffset == SIZE_MAX
    {
      var r := ranges[i];
      assert r in ranges && PagesOf(r.offset + r.bytes) <= PagesOf(size);
      AlignedSum(r.offset, r.bytes);
      RangeInOrder(ranges, size, position, i, nextOffset, nextEnd);
      ConsiderOk(position, size, r.offset, r.bytes, nextOffset, nextEnd);
      var next := Consider(position, r.offset, r.bytes, nextOffset, nextEnd);
      nextOffset, nextEnd := next.0, next.1;
      assert ranges[i..][1..] == ranges[i + 1..];
      i := i + 1;
    }
    i := 0;
    assert rogues[0..] == rogues;
    while i < |rogues|
      invariant 0 <= i <= |rogues|
      invariant MeetRogues(position, rogues[i..], nextOffset, nextEnd) == Obstacle(position, ranges, rogues)
      invariant ObstacleOk(position, size, nextOffset, nextEnd)
      invariant forall r | r in ranges :: Clear(position, nextOffset, r.offset, r.bytes)
      invariant forall j | 0 <= j < i :: Clear(position, nextOffset, SpanOf(rogues[j]).offset, SpanOf(rogues[j]).bytes)
      invariant rogues == [] ==>
                  forall k | 0 <= k <= |ranges| && position == GapStart(ranges, k) ::
                        NextIsRange(ranges, k, nextOffset, nextEnd)
    {
      var b := rogues[i];
      assert b in rogues;
      var span := SpanOf(b);
      SpanFacts(b, size);
      ConsiderOk(position, size, span.offset, span.bytes, nextOffset, nextEnd);
      var next := Consider(position, span.offset, span.bytes, nextOffset, nextEnd);
      nextOffset, nextEnd := next.0, next.1;
      assert rogues[i..][1..] == rogues[i + 1..];
      i := i + 1;
    }
  }

  /** Taking the ranges in order, the first one past `position` stays the next obstacle. */
  lemma {:induction false} RangeInOrder(s: seq<SmallRange>, size: nat, position: nat, i: nat, nextOffset: nat,
                                        nextEnd: nat)
    requires SmallSorted(s) && i < |s| && SmallWithin(s, size) && size < SIZE_MAX
    requires nextOffset == SIZE_MAX ==> nextEnd == 0
    ensures forall k | 0 <= k <= |s| && position == GapStart(s, k) &&
                       (if k < i then NextIsRange(s, k, nextOffset, nextEnd) else nextOffset == SIZE_MAX) ::
              var (o, e) := Consider(position, s[i].offset, s[i].bytes, nextOffset, nextEnd);
              if k < i + 1 then NextIsRange(s, k, o, e) else o == SIZE_MAX
  {
    assert s[i] in s;
    forall k | 0 <= k <= |s| && position == GapStart(s, k) &&
               (if k < i then NextIsRange(s, k, nextOffset, nextEnd) else nextOffset == SIZE_MAX)
      ensures var (o, e) := Consider(position, s[i].offset, s[i].bytes, nextOffset, nextEnd);
              if k < i + 1 then NextIsRange(s, k, o, e) else o == SIZE_MAX
    {
      if k < i { assert Before(s[k], s[i]); }
      if 0 < k <= i { assert Before(s[k - 1], s[i]); }
      if i + 1 < k { assert Before(s[i], s[k - 1]); }
    }
  }

  // ---------------------------------------------------------------- the whole sweep

  /** The sweep position is at a page end once it has passed the high-water mark. */
  predicate SweepAt(position: nat, size: nat) {
    position <= PageUp(size) && (position > size ==> position == PageUp(size))
  }

  /** [offset, offset + bytes) meets no live range and no page of an escaped block. */
  ghost predicate AvoidsAll(ranges: seq<SmallRange>, rogues: seq<Interval>, offset: nat, bytes: nat) {
    && (forall r | r in ranges :: !Overlaps(offset, bytes, r))
    && (forall b | b in rogues :: !Meets(offset, bytes, SpanOf(b)))
  }

  /** What the sweep knows after `n` gaps of a heap without escaped blocks. */
  ghost predicate GapsSwept(s: seq<SmallRange>, size: nat, n: nat, bytes: nat, offset: nat, smallest: nat)
    requires n <= |s| + 1
  {
    if smallest == SIZE_MAX then
      offset == size && forall j | 0 <= j < n :: !GapFits(s, size, j, bytes)
    else
      exists k :: 0 <= k < n && BestGap(s, size, n, k, bytes) && offset == GapStart(s, k)
                  && smallest == GapEnd(s, size, k) - GapStart(s, k)
  }

  lemma {:induction false} SweepGap(s: seq<SmallRange>, size: nat, n: nat, bytes: nat, offset: nat, smallest: nat)
    requires n <= |s| && GapsSwept(s, size, n, bytes, offset, smallest)
    requires GapStart(s, n) <= GapEnd(s, size, n) < SIZE_MAX
    ensures var hole := GapEnd(s, size, n) - GapStart(s, n);
            if hole >= bytes && hole < smallest then GapsSwept(s, size, n + 1, bytes, GapStart(s, n), hole)
            else GapsSwept(s, size, n + 1, bytes, offset, smallest)
  {
    var hole := GapEnd(s, size, n) - GapStart(s, n);
    if hole >= bytes && hole < smallest {
      assert BestGap(s, size, n + 1, n, bytes);
    } else if smallest != SIZE_MAX {
      var k :| 0 <= k < n && BestGap(s, size, n, k, bytes) && offset == GapStart(s, k) &&
          smallest == GapEnd(s, size, k) - GapStart(s, k);
      assert BestGap(s, size, n + 1, k, bytes);
    }
  }

  lemma {:induction false} GapOrder(s: seq<SmallRange>, size: nat, k: nat)
    requires SmallSorted(s) && SmallWithin(s, size) && k <= |s|
    ensures GapStart(s, k) <= GapEnd(s, size, k) <= size
  {
    if k < |s| { assert s[k] in s; }
    if k > 0 { assert s[k - 1] in s; }
    if 0 < k < |s| { assert Before(s[k - 1], s[k]); }
  }

  lemma {:induction false} GapsDone(s: seq<SmallRange>, size: nat, bytes: nat, offset: nat, smallest: nat)
    requires GapsSwept(s, size, |s| + 1, bytes, offset, smallest)
    ensures BestFit(s, size, bytes, offset)
  {
  }

  /** A hole in front of the next obstacle is clear of everything. */
  lemma {:induction false} HoleAvoids(ranges: seq<SmallRange>, rogues: seq<Interval>, position: nat, next: nat,
                                      nextOffset: nat, bytes: nat)
    requires position + bytes <= next <= nextOffset && bytes > 0
    requires forall r | r in ranges :: Clear(position, nextOffset, r.offset, r.bytes)
    requires forall b | b in rogues :: Clear(position, nextOffset, SpanOf(b).offset, SpanOf(b).bytes)
    ensures AvoidsAll(ranges, rogues, position, bytes)
  {
  }

  /** Whether an obstacle lies between `position` and the high-water mark; the rest is how obstacles are. */
  predicate Blocked(position: nat, size: nat, ranges: seq<SmallRange>, rogues: seq<Interval>) {
    var (o, e) := Obstacle(position, ranges, rogues);
    position <= o < size && position < e <= PageUp(size)
  }

  /** Where the chain of obstacles from `position` ends. */
  function Rest(position: nat, size: nat, ranges: seq<SmallRange>, rogues: seq<Interval>): nat
    decreases PageUp(size) - position
  {
    if position < size && Blocked(position, size, ranges, rogues)
    then Rest(Obstacle(position, ranges, rogues).1, size, ranges, rogues)
    else position
  }

  datatype Gap = Gap(start: nat, length: nat)

  /** The gaps in front of the obstacles on that chain, and the one behind the last. */
  function Gaps(position: nat, size: nat, ranges: seq<SmallRange>, rogues: seq<Interval>): seq<Gap>
    decreases PageUp(size) - position
  {
    if position >= size then []
    else if Blocked(position, size, ranges, rogues) then
      var (o, e) := Obstacle(position, ranges, rogues);
      [Gap(position, o - position)] + Gaps(e, size, ranges, rogues)
    else [Gap(position, size - position)]
  }

  /** Some gap on the chain has room for `bytes`. */
  ghost predicate SomeHole(position: nat, size: nat, ranges: seq<SmallRange>, rogues: seq<Interval>, bytes: nat) {
    exists k :: 0 <= k < |Gaps(position, size, ranges, rogues)| &&
           Gaps(position, size, ranges, rogues)[k].length >= bytes
  }

  /** Among the first `n` gaps, `k` has room, and none with room is shorter, nor as short and further left. */
  ghost predicate BestHole(gaps: seq<Gap>, n: nat, k: nat, bytes: nat)
    requires k < n <= |gaps|
  {
    && gaps[k].length >= bytes
    && forall j | 0 <= j < n && gaps[j].length >= bytes ::
         gaps[k].length < gaps[j].length || (gaps[k].length == gaps[j].length && k <= j)
  }

  /** The leftmost smallest hole on the chain of obstacles, else where it ends, but not below the mark. */
  ghost predicate Placed(size: nat, ranges: seq<SmallRange>, rogues: seq<Interval>, bytes: nat, offset: nat) {
    var gaps := Gaps(0, size, ranges, rogues);
    if SomeHole(0, size, ranges, rogues, bytes) then
      exists k :: 0 <= k < |gaps| && BestHole(gaps, |gaps|, k, bytes) && offset == gaps[k].start
    else offset == Max(size, Rest(0, size, ranges, rogues))
  }

  lemma {:induction false} PlacedOnce(size: nat, ranges: seq<SmallRange>, rogues: seq<Interval>, bytes: nat)
    ensures forall x, y | Placed(size, ranges, rogues, bytes, x) && Placed(size, ranges, rogues, bytes, y) :: x == y
  {
  }

  /** What the sweep knows after `n` gaps. */
  ghost predicate HolesSwept(gaps: seq<Gap>, n: nat, size: nat, bytes: nat, offset: nat, smallest: nat)
    requires n <= |gaps|
  {
    if smallest == SIZE_MAX then offset == size && forall j | 0 <= j < n :: gaps[j].length < bytes
    else exists k :: 0 <= k < n && BestHole(gaps, n, k, bytes) && offset == gaps[k].start && smallest == gaps[k].length
  }

  lemma {:induction false} SweepHole(gaps: seq<Gap>, n: nat, size: nat, bytes: nat, offset: nat, smallest: nat)
    requires n < |gaps| && HolesSwept(gaps, n, size, bytes, offset, smallest) && gaps[n].length < SIZE_MAX
    ensures if gaps[n].length >= bytes && gaps[n].length < smallest
            then HolesSwept(gaps, n + 1, size, bytes, gaps[n].start, gaps[n].length)
            else HolesSwept(gaps, n + 1, size, bytes, offset, smallest)
  {
    if gaps[n].length >= bytes && gaps[n].length < smallest {
      assert BestHole(gaps, n + 1, n, bytes);
    } else if smallest != SIZE_MAX {
      var k :| 0 <= k < n && BestHole(gaps, n, k, bytes) && offset == gaps[k].start && smallest == gaps[k].length;
      assert BestHole(gaps, n + 1, k, bytes);
    }
  }

  /** The hole chosen so far, if any, is good; without one the choice is the high-water mark. */
  ghost predicate ChoiceOk(ranges: seq<SmallRange>, rogues: seq<Interval>, size: nat, bytes: nat, offset: nat,
                           smallest: nat)
  {
    if smallest == SIZE_MAX then offset == size
    else offset + bytes <= size && AvoidsAll(ranges, rogues, offset, bytes)
  }

  /** One gap of the sweep: up to the next obstacle, and whether it is the best hole so far. */
  method SweepOne(position: nat, size: nat, ranges: seq<SmallRange>, rogues: seq<Interval>, bytes: nat,
                  offset: nat, smallest: nat, ghost n: nat)
    returns (next: nat, nextEnd: nat, choice: nat, hole: nat)
    requires position < size < SIZE_MAX && bytes > 0
    requires SmallSorted(ranges) && SmallWithin(ranges, size)
    requires forall b | b in rogues :: RogueBlockOk(b, size)
    requires ChoiceOk(ranges, rogues, size, bytes, offset, smallest)
    requires rogues == [] ==>
               n <= |ranges| && position == GapStart(ranges, n) && GapsSwept(ranges, size, n, bytes, offset, smallest)
    ensures ChoiceOk(ranges, rogues, size, bytes, choice, hole)
    ensures rogues == [] ==> GapsSwept(ranges, size, n + 1, bytes, choice, hole)
    ensures next == (if Obstacle(position, ranges, rogues).0 == SIZE_MAX then size
                     else Obstacle(position, ranges, rogues).0)
    ensures nextEnd == Obstacle(position, ranges, rogues).1
    ensures next <= size && (next < size ==> position < nextEnd && SweepAt(nextEnd, size))
    ensures rogues == [] && next < size ==> n + 1 <= |ranges| && nextEnd == GapStart(ranges, n + 1)
    ensures rogues == [] && next == size ==> n == |ranges|
    ensures next < size <==> Blocked(position, size, ranges, rogues)
    ensures next < size ==> Aligned(nextEnd)
    ensures if next - position >= bytes && next - position < smallest then choice == position && hole == next - position
            else choice == offset && hole == smallest
  {
    hide GapsSwept, AvoidsAll, Obstacle, Clear;
    var nextOffset;
    nextOffset, nextEnd := NextObstacle(position, size, ranges, rogues);
    next := if nextOffset == SIZE_MAX then size else nextOffset;
    choice, hole := offset, smallest;
    if rogues == [] {
      GapOrder(ranges, size, n);
      SweepGap(ranges, size, n, bytes, offset, smallest);
    }
    if next - position >= bytes && next - position < smallest {
      HoleAvoids(ranges, rogues, position, next, nextOffset, bytes);
      choice, hole := position, next - position;
    }
  }

  /**
   Where a small allocation of `bytes` goes.  It never meets a live range nor an
   escaped block.  It meets a page of an escaped block exactly when no gap on the chain
   of obstacles has room for it, the chain does not lead past the high-water mark, and
   the mark lies inside such a page.
   */
  method SmallOffset(size: nat, ranges: seq<SmallRange>, rogues: seq<Interval>, bytes: nat) returns (offset: nat)
    requires size <= MG_SMALL_PAGES * MG_PAGE && bytes > 0 && Aligned(size)
    requires SmallSorted(ranges) && SmallWithin(ranges, size)
    requires forall b | b in rogues :: RogueBlockOk(b, size)
    ensures offset <= PageUp(size) && Aligned(offset)
    ensures forall r | r in ranges :: !Overlaps(offset, bytes, r)
    ensures forall b | b in rogues :: !Meets(offset, bytes, b)
    ensures (exists b :: b in rogues && Meets(offset, bytes, SpanOf(b))) <==>
              && !SomeHole(0, size, ranges, rogues, bytes) && Rest(0, size, ranges, rogues) <= size
              && exists b :: b in rogues && SpanOf(b).offset + SpanOf(b).bytes > size
    ensures offset < size ==> offset + bytes <= size
    ensures Placed(size, ranges, rogues, bytes, offset)
    ensures rogues == [] ==> BestFit(ranges, size, bytes, offset)
  {
    hide GapsSwept, AvoidsAll, Obstacle, Overlaps, Meets, SpanOf, BestFit, RogueBlockOk, SmallSorted, SmallWithin,
         Blocked;
    var position: nat := 0;
    offset := size;
    var smallestHole: nat := SIZE_MAX;
    ghost var n: nat := 0;
    ghost var gaps := Gaps(0, size, ranges, rogues);
    NoGapYet(ranges, size, bytes);
    while position < size
      invariant SweepAt(position, size) && Aligned(position) && Aligned(offset)
      invariant n <= |gaps| && gaps[n..] == Gaps(position, size, ranges, rogues)
      invariant HolesSwept(gaps, n, size, bytes, offset, smallestHole)
      invariant ChoiceOk(ranges, rogues, size, bytes, offset, smallestHole)
      invariant Rest(position, size, ranges, rogues) == Rest(0, size, ranges, rogues)
      invariant rogues == [] ==>
                  n <= |ranges| && position == GapStart(ranges, n) &&
                  GapsSwept(ranges, size, n, bytes, offset, smallestHole)
      decreases PageUp(size) - position
    {
      var next, nextEnd;
      GapFirst(position, size, ranges, rogues);
      assert gaps[n..][0] == gaps[n] && gaps[n..][1..] == gaps[n + 1..];
      SweepHole(gaps, n, size, bytes, offset, smallestHole);
      next, nextEnd, offset, smallestHole := SweepOne(position, size, ranges, rogues, bytes, offset, smallestHole, n);
      n := n + 1;
      if next == size { break; }
      position := nextEnd;
    }
    if rogues == [] { LastGap(ranges, size, n, position, bytes, offset, smallestHole); }
    if smallestHole == SIZE_MAX {
      offset := if offset < position then position else offset;
    }
    OutsideRogues(ranges, rogues, size, offset, bytes, smallestHole);
  }

  lemma {:induction false} GapFirst(position: nat, size: nat, ranges: seq<SmallRange>, rogues: seq<Interval>)
    requires position < size
    ensures var gaps, o := Gaps(position, size, ranges, rogues), Obstacle(position, ranges, rogues);
            && |gaps| > 0 && gaps[0].start == position && gaps[0].length <= size - position
            && if Blocked(position, size, ranges, rogues)
               then gaps[0].length == o.0 - position && gaps[1..] == Gaps(o.1, size, ranges, rogues)
               else gaps[0].length == size - position && gaps[1..] == []
  {
  }

  lemma {:induction false} NoGapYet(s: seq<SmallRange>, size: nat, bytes: nat)
    ensures GapsSwept(s, size, 0, bytes, size, SIZE_MAX)
  {
  }

  lemma {:induction false} LastGap(s: seq<SmallRange>, size: nat, n: nat, position: nat, bytes: nat, offset: nat,
                                   smallest: nat)
    requires SmallSorted(s) && SmallWithin(s, size) && bytes > 0 && size < SIZE_MAX
    requires n <= |s| + 1 && GapsSwept(s, size, n, bytes, offset, smallest)
    requires n <= |s| ==> position == GapStart(s, n) >= size
    ensures BestFit(s, size, bytes, offset) && (n <= |s| ==> position <= size)
  {
    if n <= |s| {
      GapOrder(s, size, n);
      SweepGap(s, size, n, bytes, offset, smallest);
      assert forall i | 0 <= i < |s| :: s[i] in s;
    }
    GapsDone(s, size, bytes, offset, smallest);
  }

  lemma {:induction false} OutsideRogues(ranges: seq<SmallRange>, rogues: seq<Interval>, size: nat, offset: nat,
                                         bytes: nat, smallest: nat)
    requires bytes > 0 && SmallWithin(ranges, size)
    requires forall b | b in rogues :: RogueBlockOk(b, size)
    requires if smallest == SIZE_MAX then size <= offset && SweepAt(offset, size)
             else offset + bytes <= size && AvoidsAll(ranges, rogues, offset, bytes)
    ensures forall r | r in ranges :: !Overlaps(offset, bytes, r)
    ensures forall b | b in rogues :: !Meets(offset, bytes, b)
    ensures (exists b :: b in rogues && Meets(offset, bytes, SpanOf(b))) <==>
              offset == size && exists b :: b in rogues && SpanOf(b).offset + SpanOf(b).bytes > size
  {
    forall b | b in rogues
      ensures SpanOf(b).offset <= b.offset && b.offset + b.bytes <= SpanOf(b).offset + SpanOf(b).bytes <= PageUp(size)
      ensures SpanOf(b).offset < size
    {
      SpanFacts(b, size);
    }
  }

  /** At most one new page makes room for a small allocation. */
  lemma {:induction false} OnePageEnough(size: nat, offset: nat, bytes: nat)
    requires offset <= PageUp(size) && bytes <= MG_SMALL_LIMIT
    ensures PagesOf(offset + bytes) <= PagesOf(size) + 1
  {
    assert PagesOf(PageUp(size) + MG_SMALL_LIMIT) <= PagesOf(size) + 1;
  }

  /**
   The exception is real.  Two escaped blocks on pages 0 and 1, in that order, and a
   live range behind the second: the end kept for the live range is carried over to
   the first page, the sweep jumps to the high-water mark, and the next allocation is
   placed on page 1.  With the two blocks in the other order it is not.
   */
  lemma {:induction false} RoguePageHandedOut()
    ensures var size := MG_PAGE + 8192;
            var ranges := [SmallRange(MG_PAGE + 4096, 4096, 1, 0)];
            var b, c := Interval(0, 4096), Interval(MG_PAGE, 4096);
            && SmallSorted(ranges) && SmallWithin(ranges, size) && RogueBlockOk(b, size) && RogueBlockOk(c, size)
            && !SomeHole(0, size, ranges, [b, c], 4096) && Rest(0, size, ranges, [b, c]) == size
            && Meets(size, 4096, SpanOf(c))
            && !SomeHole(0, size, ranges, [c, b], 4096) && Rest(0, size, ranges, [c, b]) == 2 * MG_PAGE
  {
    var r := SmallRange(MG_PAGE + 4096, 4096, 1, 0);
    var b, c := Interval(0, 4096), Interval(MG_PAGE, 4096);
    assert SpanOf(b) == Interval(0, MG_PAGE) && SpanOf(c) == Interval(MG_PAGE, MG_PAGE);
    assert [r][1..] == [];
    assert MeetRanges(0, [r], SIZE_MAX, 0) == (MG_PAGE + 4096, MG_PAGE + 8192);
    MeetTwo(0, b, c, MG_PAGE + 4096, MG_PAGE + 8192);
    MeetTwo(0, c, b, MG_PAGE + 4096, MG_PAGE + 8192);
    var o1, e1 := MG_PAGE + 4096, MG_PAGE + 8192;
    assert Consider(0, 0, MG_PAGE, o1, e1) == (0, e1) && Consider(0, MG_PAGE, MG_PAGE, 0, e1) == (0, e1);
    assert Consider(0, MG_PAGE, MG_PAGE, o1, e1) == (MG_PAGE, 2 * MG_PAGE);
    assert Consider(0, 0, MG_PAGE, MG_PAGE, 2 * MG_PAGE) == (0, 2 * MG_PAGE);
  }

  lemma {:induction false} MeetTwo(position: nat, x: Interval, y: Interval, nextOffset: nat, nextEnd: nat)
    ensures MeetRogues(position, [x, y], nextOffset, nextEnd) ==
              var (o, e) := Consider(position, SpanOf(x).offset, SpanOf(x).bytes, nextOffset, nextEnd);
              Consider(position, SpanOf(y).offset, SpanOf(y).bytes, o, e)
  {
    hide SpanOf, Consider;
    assert [x, y][1..] == [y] && [y][1..] == [];
    var next := Consider(position, SpanOf(x).offset, SpanOf(x).bytes, nextOffset, nextEnd);
    assert MeetRogues(position, [y], next.0, next.1) ==
             Consider(position, SpanOf(y).offset, SpanOf(y).bytes, next.0, next.1);
  }
}
