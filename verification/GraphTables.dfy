/**
 The tables a malloc graph keeps while it records: which virtual pages start an
 allocation, which physical pages are live, and the sub-page ranges of the small
 heap.  Everything here is a value: the program copies the whole struct when it
 takes a snapshot.
 */
module GraphTables {
  import opened Basics

  const MG_SMALL_PAGES: nat := 1024
  const MG_SMALL_LIMIT: nat := 4194304
  const MG_SMALL_ALIGN: nat := 4096

  type NodeId = nat

  /** Entry of `virtual_pages`; the program's zeroed entry is an absent key here. */
  datatype VirtualPage = VirtualPage(span: nat, ownerDepth: nat, allocation: NodeId)

  datatype SmallRange = SmallRange(offset: nat, bytes: nat, ownerDepth: nat, allocation: NodeId)

  /** `physicalLive` holds the indices whose flag is set. */
  datatype Tables = Tables(virtualPages: map<nat, VirtualPage>, physicalLive: set<nat>, smallRanges: seq<SmallRange>)

  const EMPTY_TABLES := Tables(map[], {}, [])

  /** The least number of pages with room for `bytes`. */
  function PagesOf(bytes: nat): (n: nat)
    ensures bytes <= n * MG_PAGE < bytes + MG_PAGE
  {
    (bytes + MG_PAGE - 1) / MG_PAGE
  }

  /** The least multiple of the alignment with room for `bytes`. */
  function AlignSmall(bytes: nat): (n: nat)
    ensures bytes <= n < bytes + MG_SMALL_ALIGN && Aligned(n)
  {
    (bytes + MG_SMALL_ALIGN - 1) / MG_SMALL_ALIGN * MG_SMALL_ALIGN
  }

  /** Physical pages behind a virtual range. */
  function PhysOf(vaPhys: seq<nat>, va: nat, span: nat): set<nat> {
    set i | va <= i < va + span && i < |vaPhys| :: vaPhys[i]
  }

  ghost predicate DistinctWindow(vaPhys: seq<nat>, va: nat, span: nat)
    requires va + span <= |vaPhys|
  {
    forall i, j | va <= i < j < va + span :: vaPhys[i] != vaPhys[j]
  }

  lemma {:induction false} PhysOfCard(vaPhys: seq<nat>, va: nat, span: nat)
    requires va + span <= |vaPhys|
    requires DistinctWindow(vaPhys, va, span)
    ensures |PhysOf(vaPhys, va, span)| == span
    decreases span
  {
    if span == 0 {
      assert PhysOf(vaPhys, va, span) == {};
    } else {
      PhysOfCard(vaPhys, va, span - 1);
      assert PhysOf(vaPhys, va, span) == PhysOf(vaPhys, va, span - 1) + {vaPhys[va + span - 1]};
    }
  }

  // ---------------------------------------------------------------- small ranges

  ghost predicate SmallSorted(s: seq<SmallRange>) {
    && (forall i | 0 <= i < |s| :: s[i].bytes > 0)
    && (forall i, j | 0 <= i < j < |s| :: Before(s[i], s[j]))
  }

  predicate Before(a: SmallRange, b: SmallRange) {
    a.offset + a.bytes <= b.offset
  }

  /** The ranges are aligned and lie below `size`. */
  ghost predicate SmallWithin(s: seq<SmallRange>, size: nat) {
    forall r | r in s :: Aligned(r.offset) && Aligned(r.bytes) && r.offset + r.bytes <= size
  }

  predicate Aligned(x: nat) {
    x % MG_SMALL_ALIGN == 0
  }

  lemma {:induction false} AlignedSum(x: nat, y: nat)
    requires Aligned(x) && Aligned(y)
    ensures Aligned(x + y)
  {
  }

  predicate Overlaps(offset: nat, bytes: nat, r: SmallRange) {
    offset < r.offset + r.bytes && r.offset < offset + bytes
  }

  function SumBytes(s: seq<SmallRange>): nat {
    if s == [] then 0 else s[0].bytes + SumBytes(s[1..])
  }

  /** Position of the first range at or after `offset`. */
  function Position(s: seq<SmallRange>, offset: nat): (k: nat)
    ensures k <= |s|
    ensures forall i | 0 <= i < k :: s[i].offset < offset
    ensures k < |s| ==> s[k].offset >= offset
  {
    if s == [] || s[0].offset >= offset then 0 else 1 + Position(s[1..], offset)
  }

  function InsertSmall(s: seq<SmallRange>, r: SmallRange): seq<SmallRange> {
    var k := Position(s, r.offset);
    s[..k] + [r] + s[k..]
  }

  function RemoveSmall(s: seq<SmallRange>, k: nat): seq<SmallRange>
    requires k < |s|
  {
    s[..k] + s[k + 1..]
  }

  lemma {:induction false} SumBytesSplit(s: seq<SmallRange>, k: nat)
    requires k <= |s|
    ensures SumBytes(s) == SumBytes(s[..k]) + SumBytes(s[k..])
    decreases k
  {
    if k == 0 {
      assert s[..0] == [] && s[0..] == s;
    } else {
      SumBytesSplit(s[1..], k - 1);
      assert s[1..][..k - 1] == s[..k][1..];
      assert s[1..][k - 1..] == s[k..];
    }
  }

  lemma {:induction false} SumBytesInsert(s: seq<SmallRange>, k: nat, r: SmallRange)
    requires k <= |s|
    ensures SumBytes(s[..k] + [r] + s[k..]) == SumBytes(s) + r.bytes
  {
    var t := s[..k] + [r] + s[k..];
    SumBytesSplit(s, k);
    SumBytesSplit(t, k);
    assert t[..k] == s[..k];
    assert t[k..][0] == r && t[k..][1..] == s[k..];
  }

  lemma {:induction false} SumBytesRemove(s: seq<SmallRange>, k: nat)
    requires k < |s|
    ensures SumBytes(RemoveSmall(s, k)) + s[k].bytes == SumBytes(s)
  {
    var t := RemoveSmall(s, k);
    SumBytesInsert(t, k, s[k]);
    assert t[..k] + [s[k]] + t[k..] == s;
  }

  lemma {:induction false} InsertMembers(s: seq<SmallRange>, k: nat, r: SmallRange)
    requires k <= |s|
    ensures forall q :: q in s[..k] + [r] + s[k..] <==> q in s || q == r
  {
    assert s == s[..k] + s[k..];
  }

  lemma {:induction false} InsertSorted(s: seq<SmallRange>, k: nat, r: SmallRange)
    requires SmallSorted(s) && r.bytes > 0 && k <= |s|
    requires forall i | 0 <= i < k :: Before(s[i], r)
    requires forall i | k <= i < |s| :: Before(r, s[i])
    ensures SmallSorted(s[..k] + [r] + s[k..])
  {
  }

  lemma {:induction false} PositionSplits(s: seq<SmallRange>, r: SmallRange)
    requires SmallSorted(s) && r.bytes > 0
    requires forall q | q in s :: !Overlaps(r.offset, r.bytes, q)
    ensures forall i | 0 <= i < Position(s, r.offset) :: Before(s[i], r)
    ensures forall i | Position(s, r.offset) <= i < |s| :: Before(r, s[i])
  {
    var k := Position(s, r.offset);
    forall i | 0 <= i < |s|
      ensures i < k ==> Before(s[i], r)
      ensures i >= k ==> Before(r, s[i])
    {
      assert s[i] in s;
      if i > k { assert Before(s[k], s[i]); }
    }
  }

  /** A range that overlaps none of the others goes in without breaking the order. */
  lemma {:induction false} InsertSmallOk(s: seq<SmallRange>, r: SmallRange)
    requires SmallSorted(s) && r.bytes > 0
    requires forall q | q in s :: !Overlaps(r.offset, r.bytes, q)
    ensures SmallSorted(InsertSmall(s, r))
    ensures forall q :: q in InsertSmall(s, r) <==> q in s || q == r
    ensures SumBytes(InsertSmall(s, r)) == SumBytes(s) + r.bytes
  {
    var k := Position(s, r.offset);
    SumBytesInsert(s, k, r);
    PositionSplits(s, r);
    InsertSorted(s, k, r);
    InsertMembers(s, k, r);
  }

  lemma {:induction false} RemoveSorted(s: seq<SmallRange>, k: nat)
    requires SmallSorted(s) && k < |s|
    ensures SmallSorted(RemoveSmall(s, k))
  {
  }

  lemma {:induction false} RemoveMembers(s: seq<SmallRange>, k: nat)
    requires SmallSorted(s) && k < |s|
    ensures forall q :: q in RemoveSmall(s, k) <==> q in s && q != s[k]
  {
    var t := RemoveSmall(s, k);
    assert s == s[..k] + [s[k]] + s[k + 1..];
    forall i | 0 <= i < |s| && i != k
      ensures s[i] != s[k]
    {
      assert if i < k then Before(s[i], s[k]) else Before(s[k], s[i]);
    }
  }

  lemma {:induction false} RemoveSmallOk(s: seq<SmallRange>, k: nat)
    requires SmallSorted(s) && k < |s|
    ensures SmallSorted(RemoveSmall(s, k))
    ensures forall q :: q in RemoveSmall(s, k) <==> q in s && q != s[k]
    ensures SumBytes(RemoveSmall(s, k)) + s[k].bytes == SumBytes(s)
  {
    SumBytesRemove(s, k);
    RemoveSorted(s, k);
    RemoveMembers(s, k);
  }

  /** In a sorted list an offset identifies its range. */
  lemma {:induction false} SmallByOffset(s: seq<SmallRange>, r: SmallRange)
    requires SmallSorted(s) && r in s
    ensures Position(s, r.offset) < |s| && s[Position(s, r.offset)] == r
  {
    var k := Position(s, r.offset);
    var i :| 0 <= i < |s| && s[i] == r;
    assert forall a | 0 <= a < i :: Before(s[a], s[i]);
  }

  /** The first of a sorted list is its only member below every other. */
  lemma {:induction false} FirstLeast(s: seq<SmallRange>, q: SmallRange)
    requires SmallSorted(s) && q in s
    ensures q == s[0] || (s[0].offset < q.offset)
  {
    var i :| 0 <= i < |s| && s[i] == q;
    assert i > 0 ==> Before(s[0], s[i]);
  }

  /** Two sorted lists with the same members are the same list. */
  lemma {:induction false} SortedUnique(s: seq<SmallRange>, t: seq<SmallRange>)
    requires SmallSorted(s) && SmallSorted(t)
    requires forall q :: q in s <==> q in t
    ensures s == t
    decreases |s|
  {
    if t != [] { assert t[0] in t; }
    if s != [] {
      assert s[0] in s;
      FirstLeast(s, t[0]);
      FirstLeast(t, s[0]);
      RemoveSorted(s, 0);
      RemoveMembers(s, 0);
      RemoveSorted(t, 0);
      RemoveMembers(t, 0);
      assert RemoveSmall(s, 0) == s[1..] && RemoveSmall(t, 0) == t[1..];
      SortedUnique(s[1..], t[1..]);
    }
  }

  // ---------------------------------------------------------------- whole tables

  /** Physical pages of the allocation that starts at `va`. */
  function PhysAt(t: Tables, vaPhys: seq<nat>, va: nat): set<nat>
    requires va in t.virtualPages
  {
    PhysOf(vaPhys, va, t.virtualPages[va].span)
  }

  ghost predicate WindowsOk(t: Tables, vaPhys: seq<nat>) {
    forall va | va in t.virtualPages ::
      && t.virtualPages[va].span > 0
      && va + t.virtualPages[va].span <= |vaPhys|
      && DistinctWindow(vaPhys, va, t.virtualPages[va].span)
  }

  ghost predicate DisjointAllocations(t: Tables, vaPhys: seq<nat>) {
    forall va, wa | va in t.virtualPages && wa in t.virtualPages && va != wa ::
      PhysAt(t, vaPhys, va) !! PhysAt(t, vaPhys, wa)
  }

  ghost predicate LiveExact(t: Tables, vaPhys: seq<nat>) {
    && (forall va | va in t.virtualPages :: PhysAt(t, vaPhys, va) <= t.physicalLive)
    && (forall p | p in t.physicalLive :: exists va :: va in t.virtualPages && p in PhysAt(t, vaPhys, va))
  }

  ghost predicate LargeOk(t: Tables, vaPhys: seq<nat>) {
    WindowsOk(t, vaPhys) && DisjointAllocations(t, vaPhys) && LiveExact(t, vaPhys)
  }

  /** The tables describe a set of allocations no two of which share memory. */
  ghost predicate TablesOk(t: Tables, vaPhys: seq<nat>, smallSize: nat) {
    && LargeOk(t, vaPhys)
    && SmallSorted(t.smallRanges)
    && SmallWithin(t.smallRanges, smallSize)
  }

  /** Bytes the tables account for: what the program's `allocation_used` counts. */
  function Total(t: Tables): nat {
    |t.physicalLive| * MG_PAGE + SumBytes(t.smallRanges)
  }

  /** Every allocation of `small` is present, unchanged, in `big`. */
  ghost predicate Includes(big: Tables, small: Tables) {
    && (forall va | va in small.virtualPages ::
        va in big.virtualPages && big.virtualPages[va] == small.virtualPages[va])
    && (forall r | r in small.smallRanges :: r in big.smallRanges)
  }

  lemma {:induction false} IncludesTransitive(a: Tables, b: Tables, c: Tables)
    requires Includes(a, b) && Includes(b, c)
    ensures Includes(a, c)
  {
  }

  lemma {:induction false} IncludesLive(big: Tables, small: Tables, vaPhys: seq<nat>)
    requires LargeOk(big, vaPhys) && LargeOk(small, vaPhys) && Includes(big, small)
    ensures small.physicalLive <= big.physicalLive
  {
    forall p | p in small.physicalLive
      ensures p in big.physicalLive
    {
      var va :| va in small.virtualPages && p in PhysAt(small, vaPhys, va);
      assert PhysAt(big, vaPhys, va) == PhysAt(small, vaPhys, va);
    }
  }

  lemma {:induction false} SumBytesSubset(s: seq<SmallRange>, t: seq<SmallRange>)
    requires SmallSorted(s) && SmallSorted(t)
    requires forall q | q in s :: q in t
    ensures SumBytes(s) <= SumBytes(t)
    decreases |s|
  {
    if s != [] {
      assert s[0] in s;
      var k :| 0 <= k < |t| && t[k] == s[0];
      RemoveSorted(s, 0);
      RemoveMembers(s, 0);
      RemoveSmallOk(t, k);
      assert RemoveSmall(s, 0) == s[1..];
      SumBytesSubset(s[1..], RemoveSmall(t, k));
    }
  }

  lemma {:induction false} SubsetCard(a: set<nat>, b: set<nat>)
    requires a <= b
    ensures |a| <= |b|
  {
    assert b == a + (b - a);
    assert |b| == |a| + |b - a|;
  }

  /** More allocations account for more bytes. */
  lemma {:induction false} IncludesTotal(big: Tables, small: Tables, vaPhys: seq<nat>, smallSize: nat)
    requires TablesOk(big, vaPhys, smallSize) && TablesOk(small, vaPhys, smallSize) && Includes(big, small)
    ensures Total(small) <= Total(big)
  {
    IncludesLive(big, small, vaPhys);
    SubsetCard(small.physicalLive, big.physicalLive);
    SumBytesSubset(small.smallRanges, big.smallRanges);
  }

  /** Tables with the same allocations are equal: the flags and the list order are determined by them. */
  lemma {:induction false} IncludesAntisymmetric(a: Tables, b: Tables, vaPhys: seq<nat>, smallSize: nat)
    requires TablesOk(a, vaPhys, smallSize) && TablesOk(b, vaPhys, smallSize)
    requires Includes(a, b) && Includes(b, a)
    ensures a == b
  {
    assert a.virtualPages.Keys == b.virtualPages.Keys;
    assert a.virtualPages == b.virtualPages;
    IncludesLive(a, b, vaPhys);
    IncludesLive(b, a, vaPhys);
    SortedUnique(a.smallRanges, b.smallRanges);
  }

  lemma {:induction false} PhysOfGrow(vaPhys: seq<nat>, vaPhys': seq<nat>, va: nat, span: nat)
    requires vaPhys <= vaPhys' && va + span <= |vaPhys|
    ensures PhysOf(vaPhys', va, span) == PhysOf(vaPhys, va, span)
    ensures DistinctWindow(vaPhys, va, span) ==> DistinctWindow(vaPhys', va, span)
  {
    assert forall i | 0 <= i < |vaPhys| :: vaPhys'[i] == vaPhys[i];
  }

  /** Mapping more virtual pages at the end changes nothing for the ranges already there. */
  lemma {:induction false} TablesOkGrow(t: Tables, vaPhys: seq<nat>, vaPhys': seq<nat>, smallSize: nat, smallSize': nat)
    requires TablesOk(t, vaPhys, smallSize)
    requires vaPhys <= vaPhys' && smallSize <= smallSize'
    ensures TablesOk(t, vaPhys', smallSize')
  {
    forall va | va in t.virtualPages
      ensures PhysAt(t, vaPhys', va) == PhysAt(t, vaPhys, va)
      ensures DistinctWindow(vaPhys', va, t.virtualPages[va].span)
    {
      PhysOfGrow(vaPhys, vaPhys', va, t.virtualPages[va].span);
    }
    assert DisjointAllocations(t, vaPhys');
    assert LiveExact(t, vaPhys') by {
      forall p | p in t.physicalLive
        ensures exists va :: va in t.virtualPages && p in PhysAt(t, vaPhys', va)
      {
        var va :| va in t.virtualPages && p in PhysAt(t, vaPhys, va);
      }
    }
  }

  // ---------------------------------------------------------------- one allocation in, one out

  function AddLarge(t: Tables, vaPhys: seq<nat>, va: nat, vp: VirtualPage): Tables {
    t.(virtualPages := t.virtualPages[va := vp], physicalLive := t.physicalLive + PhysOf(vaPhys, va, vp.span))
  }

  function RemoveLarge(t: Tables, vaPhys: seq<nat>, va: nat): Tables
    requires va in t.virtualPages
  {
    t.(virtualPages := t.virtualPages - {va}, physicalLive := t.physicalLive - PhysAt(t, vaPhys, va))
  }

  function AddSmall(t: Tables, r: SmallRange): Tables {
    t.(smallRanges := InsertSmall(t.smallRanges, r))
  }

  lemma {:induction false} AddLargeFresh(t: Tables, vaPhys: seq<nat>, va: nat, span: nat)
    requires LargeOk(t, vaPhys)
    requires span > 0 && va + span <= |vaPhys|
    requires PhysOf(vaPhys, va, span) !! t.physicalLive
    ensures va !in t.virtualPages
  {
    assert vaPhys[va] in PhysOf(vaPhys, va, span);
    forall wa | wa in t.virtualPages
      ensures vaPhys[wa] in t.physicalLive
    {
      assert vaPhys[wa] in PhysAt(t, vaPhys, wa);
    }
  }

  lemma {:induction false} AddLargeLarge(t: Tables, vaPhys: seq<nat>, va: nat, vp: VirtualPage)
    requires LargeOk(t, vaPhys) && va !in t.virtualPages
    requires vp.span > 0 && va + vp.span <= |vaPhys| && DistinctWindow(vaPhys, va, vp.span)
    requires PhysOf(vaPhys, va, vp.span) !! t.physicalLive
    ensures LargeOk(AddLarge(t, vaPhys, va, vp), vaPhys)
  {
    var t' := AddLarge(t, vaPhys, va, vp);
    assert PhysAt(t', vaPhys, va) == PhysOf(vaPhys, va, vp.span);
    assert forall wa | wa in t.virtualPages :: PhysAt(t', vaPhys, wa) == PhysAt(t, vaPhys, wa);
    forall p | p in t'.physicalLive
      ensures exists wa :: wa in t'.virtualPages && p in PhysAt(t', vaPhys, wa)
    {
      if p in t.physicalLive {
        var wa :| wa in t.virtualPages && p in PhysAt(t, vaPhys, wa);
        assert wa in t'.virtualPages && p in PhysAt(t', vaPhys, wa);
      } else {
        assert va in t'.virtualPages && p in PhysAt(t', vaPhys, va);
      }
    }
  }

  /** Adding an allocation whose pages are distinct and not live. */
  lemma {:induction false} AddLargeOk(t: Tables, vaPhys: seq<nat>, smallSize: nat, va: nat, vp: VirtualPage)
    requires TablesOk(t, vaPhys, smallSize)
    requires vp.span > 0 && va + vp.span <= |vaPhys| && DistinctWindow(vaPhys, va, vp.span)
    requires PhysOf(vaPhys, va, vp.span) !! t.physicalLive
    ensures va !in t.virtualPages
    ensures TablesOk(AddLarge(t, vaPhys, va, vp), vaPhys, smallSize)
    ensures Total(AddLarge(t, vaPhys, va, vp)) == Total(t) + vp.span * MG_PAGE
  {
    var phys := PhysOf(vaPhys, va, vp.span);
    AddLargeFresh(t, vaPhys, va, vp.span);
    AddLargeLarge(t, vaPhys, va, vp);
    PhysOfCard(vaPhys, va, vp.span);
    assert |t.physicalLive + phys| == |t.physicalLive| + vp.span;
  }

  lemma {:induction false} RemoveLargeLarge(t: Tables, vaPhys: seq<nat>, va: nat)
    requires LargeOk(t, vaPhys) && va in t.virtualPages
    ensures LargeOk(RemoveLarge(t, vaPhys, va), vaPhys)
  {
    var t' := RemoveLarge(t, vaPhys, va);
    assert forall wa | wa in t'.virtualPages :: PhysAt(t', vaPhys, wa) == PhysAt(t, vaPhys, wa);
    forall wa | wa in t'.virtualPages
      ensures PhysAt(t', vaPhys, wa) <= t'.physicalLive
    {
      assert PhysAt(t, vaPhys, wa) !! PhysAt(t, vaPhys, va);
    }
    forall p | p in t'.physicalLive
      ensures exists wa :: wa in t'.virtualPages && p in PhysAt(t', vaPhys, wa)
    {
      var wa :| wa in t.virtualPages && p in PhysAt(t, vaPhys, wa);
      assert wa in t'.virtualPages && p in PhysAt(t', vaPhys, wa);
    }
  }

  lemma {:induction false} RemoveLargeOk(t: Tables, vaPhys: seq<nat>, smallSize: nat, va: nat)
    requires TablesOk(t, vaPhys, smallSize) && va in t.virtualPages
    ensures TablesOk(RemoveLarge(t, vaPhys, va), vaPhys, smallSize)
    ensures Total(RemoveLarge(t, vaPhys, va)) + t.virtualPages[va].span * MG_PAGE == Total(t)
  {
    var phys := PhysAt(t, vaPhys, va);
    RemoveLargeLarge(t, vaPhys, va);
    PhysOfCard(vaPhys, va, t.virtualPages[va].span);
    assert t.physicalLive == (t.physicalLive - phys) + phys;
    assert |t.physicalLive| == |t.physicalLive - phys| + |phys|;
  }

  /** Adding a range that overlaps none of the live ones. */
  lemma {:induction false} AddSmallOk(t: Tables, vaPhys: seq<nat>, smallSize: nat, r: SmallRange)
    requires TablesOk(t, vaPhys, smallSize)
    requires r.bytes > 0 && r.offset + r.bytes <= smallSize && Aligned(r.offset) && Aligned(r.bytes)
    requires forall q | q in t.smallRanges :: !Overlaps(r.offset, r.bytes, q)
    ensures TablesOk(AddSmall(t, r), vaPhys, smallSize)
    ensures Total(AddSmall(t, r)) == Total(t) + r.bytes
  {
    InsertSmallOk(t.smallRanges, r);
  }
}
