/**
 Reference-counted physical memory as values: what `src/vmm-ref.c` keeps in its lists,
 beside what the driver holds.  An object of the program is named by a number; address
 0 stands for "not mapped".
 */
module VmmPages {
  import opened Basics

  /** One `PhysicalPage`: a reference to an allocation, mapped at an address or not. */
  datatype Page = Page(allocation: nat, address: nat)

  /** One `PhysicalAllocation`, with its list of references, newest first. */
  datatype Allocation = Allocation(bytes: nat, refs: nat, references: seq<nat>)

  /** `mapped` and `created` are the driver's: which memory is where, and how big it is. */
  datatype Memory = Memory(
    pages: map<nat, Page>, allocations: map<nat, Allocation>, usage: int,
    mapped: map<nat, nat>, created: map<nat, nat>)

  // ---------------------------------------------------------------- what every call keeps

  ghost predicate ListOk(pages: map<nat, Page>, a: nat, allocation: Allocation) {
    && allocation.refs == |allocation.references| && allocation.refs > 0
    && NoDuplicates(allocation.references)
    && forall i | 0 <= i < |allocation.references| ::
         allocation.references[i] in pages && pages[allocation.references[i]].allocation == a
  }

  /** Every allocation counts its references, and each reference is on one list. */
  ghost predicate ListsOk(pages: map<nat, Page>, allocations: map<nat, Allocation>) {
    && (forall a | a in allocations :: ListOk(pages, a, allocations[a]))
    && forall p | p in pages ::
         pages[p].allocation in allocations && p in allocations[pages[p].allocation].references
  }

  ghost predicate Carried(pages: map<nat, Page>, x: nat) {
    exists p :: p in pages && pages[p].address == x
  }

  /** An address is mapped exactly when some reference carries it, and to that one's memory. */
  ghost predicate MappedOk(pages: map<nat, Page>, mapped: map<nat, nat>) {
    && (forall p | p in pages && pages[p].address != 0 ::
          pages[p].address in mapped && mapped[pages[p].address] == pages[p].allocation)
    && forall x | x in mapped :: x != 0 && Carried(pages, x)
  }

  /** The driver holds memory for the allocations there are, of their sizes. */
  ghost predicate CreatedOk(allocations: map<nat, Allocation>, created: map<nat, nat>) {
    && created.Keys == allocations.Keys
    && forall a | a in allocations :: allocations[a].bytes == created[a]
  }

  ghost function Total(m: map<nat, nat>): nat {
    if m == map[] then 0 else var a :| a in m; m[a] + Total(m - {a})
  }

  /** The usage counter is `outside` plus all bytes the driver has not released. */
  ghost predicate Inv(m: Memory, outside: int) {
    && ListsOk(m.pages, m.allocations)
    && MappedOk(m.pages, m.mapped)
    && CreatedOk(m.allocations, m.created)
    && m.usage == outside + Total(m.created)
  }

  lemma {:induction false} TotalRemove(m: map<nat, nat>, k: nat)
    requires k in m
    ensures Total(m) == m[k] + Total(m - {k})
    decreases |m|
  {
    var a :| a in m && Total(m) == m[a] + Total(m - {a});
    if a != k {
      TotalRemove(m - {a}, k);
      TotalRemove(m - {k}, a);
      assert m - {a} - {k} == m - {k} - {a};
    }
  }

  // ---------------------------------------------------------------- the steps

  /** A new allocation `a` with its first reference `p`. */
  function Created(m: Memory, a: nat, p: nat, bytes: nat): Memory {
    Memory(m.pages[p := Page(a, 0)], m.allocations[a := Allocation(bytes, 1, [p])], m.usage + bytes,
           m.mapped, m.created[a := bytes])
  }

  /** A further reference `p` to the memory behind `page`. */
  function Referenced(m: Memory, page: nat, p: nat): Memory
    requires page in m.pages && m.pages[page].allocation in m.allocations
  {
    var a := m.pages[page].allocation;
    var al := m.allocations[a];
    m.(pages := m.pages[p := Page(a, 0)],
       allocations := m.allocations[a := al.(refs := al.refs + 1, references := [p] + al.references)])
  }

  /** The memory behind `page` mapped at a free address. */
  function MappedAt(m: Memory, page: nat, x: nat): Memory
    requires page in m.pages
  {
    m.(pages := m.pages[page := m.pages[page].(address := x)],
       mapped := m.mapped[x := m.pages[page].allocation])
  }

  /** `page` as one more holder of an existing mapping. */
  function Joined(m: Memory, page: nat, x: nat): Memory
    requires page in m.pages
  {
    m.(pages := m.pages[page := m.pages[page].(address := x)])
  }

  ghost predicate SharesAddress(m: Memory, page: nat)
    requires page in m.pages
  {
    exists p :: p in m.pages && p != page && m.pages[p] == m.pages[page]
  }

  /** `page` gives up its address; the last one to do so unmaps it. */
  ghost function Detached(m: Memory, page: nat): Memory
    requires page in m.pages
  {
    var x := m.pages[page].address;
    m.(pages := m.pages[page := m.pages[page].(address := 0)],
       mapped := if x == 0 || SharesAddress(m, page) then m.mapped else m.mapped - {x})
  }

  function Without(s: seq<nat>, x: nat): seq<nat> {
    if s == [] then [] else if s[0] == x then s[1..] else [s[0]] + Without(s[1..], x)
  }

  /** A detached `page` leaves its list; the last one releases the memory. */
  function Dropped(m: Memory, page: nat): Memory
    requires page in m.pages && m.pages[page].allocation in m.allocations
  {
    var a := m.pages[page].allocation;
    var al := m.allocations[a];
    if al.refs <= 1 then
      Memory(m.pages - {page}, m.allocations - {a}, m.usage - al.bytes, m.mapped, m.created - {a})
    else
      m.(pages := m.pages - {page},
         allocations := m.allocations[a := al.(refs := al.refs - 1, references := Without(al.references, page))])
  }

  lemma {:induction false} WithoutFacts(s: seq<nat>, x: nat)
    requires NoDuplicates(s) && x in s
    ensures NoDuplicates(Without(s, x)) && |Without(s, x)| == |s| - 1
    ensures forall y :: y in Without(s, x) <==> y in s && y != x
  {
    if s[0] != x {
      assert s == [s[0]] + s[1..];
      WithoutFacts(s[1..], x);
      assert Without(s, x) == [s[0]] + Without(s[1..], x);
      assert s[0] !in Without(s[1..], x);
    } else {
      assert forall y :: y in s <==> y == x || y in s[1..];
    }
  }

  lemma {:induction false} WithoutAt(s: seq<nat>, i: nat)
    requires NoDuplicates(s) && i < |s|
    ensures Without(s, s[i]) == s[..i] + s[i + 1..]
  {
    if i > 0 {
      WithoutAt(s[1..], i - 1);
    }
  }

  // ---------------------------------------------------------------- the steps keep the invariant

  lemma {:induction false} CreatedLists(m: Memory, a: nat, p: nat, bytes: nat)
    requires ListsOk(m.pages, m.allocations) && a !in m.allocations && p !in m.pages
    ensures var m' := Created(m, a, p, bytes); ListsOk(m'.pages, m'.allocations)
  {
    var m' := Created(m, a, p, bytes);
    forall b | b in m'.allocations ensures ListOk(m'.pages, b, m'.allocations[b]) {
      assert b != a ==> ListOk(m.pages, b, m'.allocations[b]);
    }
  }

  lemma {:induction false} CreatedInv(m: Memory, outside: int, a: nat, p: nat, bytes: nat)
    requires Inv(m, outside) && a !in m.allocations && p !in m.pages
    ensures Inv(Created(m, a, p, bytes), outside)
  {
    hide ListsOk;
    var m' := Created(m, a, p, bytes);
    TotalRemove(m'.created, a);
    assert m'.created - {a} == m.created;
    CreatedLists(m, a, p, bytes);
    forall x | x in m.mapped ensures Carried(m'.pages, x) {
      var q :| q in m.pages && m.pages[q].address == x;
      assert q in m'.pages && m'.pages[q].address == x;
    }
  }

  lemma {:induction false} ReferencedLists(m: Memory, page: nat, p: nat)
    requires ListsOk(m.pages, m.allocations) && page in m.pages && p !in m.pages
    ensures var m' := Referenced(m, page, p); ListsOk(m'.pages, m'.allocations)
  {
    var m' := Referenced(m, page, p);
    var a := m.pages[page].allocation;
    assert forall b | b in m.allocations :: ListOk(m.pages, b, m.allocations[b]);
    var before, after := m.allocations[a].references, m'.allocations[a].references;
    assert forall i | 0 < i < |after| :: after[i] == before[i - 1];
    assert ListOk(m'.pages, a, m'.allocations[a]);
    assert forall y | y in before :: y in after;
  }

  lemma {:induction false} ReferencedInv(m: Memory, outside: int, page: nat, p: nat)
    requires Inv(m, outside) && page in m.pages && p !in m.pages
    ensures Inv(Referenced(m, page, p), outside)
  {
    var m' := Referenced(m, page, p);
    ReferencedLists(m, page, p);
    forall x | x in m.mapped ensures Carried(m'.pages, x) {
      var q :| q in m.pages && m.pages[q].address == x;
      assert q in m'.pages && m'.pages[q].address == x;
    }
  }

  /** Lists do not depend on addresses. */
  lemma {:induction false} ListsReaddressed(m: Memory, page: nat, x: nat)
    requires ListsOk(m.pages, m.allocations) && page in m.pages
    ensures ListsOk(m.pages[page := m.pages[page].(address := x)], m.allocations)
  {
    var pages := m.pages[page := m.pages[page].(address := x)];
    forall a | a in m.allocations ensures ListOk(pages, a, m.allocations[a]) {
      assert ListOk(m.pages, a, m.allocations[a]);
    }
  }

  lemma {:induction false} MappedAtInv(m: Memory, outside: int, page: nat, x: nat)
    requires Inv(m, outside) && page in m.pages && m.pages[page].address == 0 && x != 0 && x !in m.mapped
    ensures Inv(MappedAt(m, page, x), outside)
  {
    var m' := MappedAt(m, page, x);
    ListsReaddressed(m, page, x);
    assert m'.pages[page].address == x;
    forall y | y in m.mapped ensures Carried(m'.pages, y) {
      var q :| q in m.pages && m.pages[q].address == y;
      assert q in m'.pages && m'.pages[q].address == y;
    }
  }

  lemma {:induction false} JoinedInv(m: Memory, outside: int, page: nat, x: nat)
    requires Inv(m, outside) && page in m.pages && m.pages[page].address == 0
    requires x in m.mapped && m.mapped[x] == m.pages[page].allocation
    ensures Inv(Joined(m, page, x), outside)
  {
    var m' := Joined(m, page, x);
    ListsReaddressed(m, page, x);
    forall y | y in m.mapped ensures Carried(m'.pages, y) {
      var q :| q in m.pages && m.pages[q].address == y;
      assert q in m'.pages && m'.pages[q].address == y;
    }
  }

  lemma {:induction false} DetachedMapped(m: Memory, page: nat)
    requires MappedOk(m.pages, m.mapped) && page in m.pages
    ensures var m' := Detached(m, page); MappedOk(m'.pages, m'.mapped)
  {
    var m' := Detached(m, page);
    var x := m.pages[page].address;
    forall y | y in m'.mapped ensures Carried(m'.pages, y) {
      if y != x {
        var q :| q in m.pages && m.pages[q].address == y;
        assert q in m'.pages && m'.pages[q].address == y;
      } else {
        var q :| q in m.pages && q != page && m.pages[q] == m.pages[page];
        assert q in m'.pages && m'.pages[q].address == y;
      }
    }
    forall q | q in m'.pages && m'.pages[q].address != 0
      ensures m'.pages[q].address in m'.mapped
    {
      if m.pages[q].address == x {
        assert m.pages[q] == m.pages[page];
      }
    }
  }

  lemma {:induction false} DetachedInv(m: Memory, outside: int, page: nat)
    requires Inv(m, outside) && page in m.pages
    ensures Inv(Detached(m, page), outside)
  {
    ListsReaddressed(m, page, 0);
    DetachedMapped(m, page);
  }

  lemma {:induction false} DroppedLists(m: Memory, page: nat)
    requires ListsOk(m.pages, m.allocations) && page in m.pages
    ensures var m' := Dropped(m, page); ListsOk(m'.pages, m'.allocations)
  {
    var m' := Dropped(m, page);
    var a := m.pages[page].allocation;
    var list := m.allocations[a].references;
    assert ListOk(m.pages, a, m.allocations[a]);
    WithoutFacts(list, page);
    forall b | b in m'.allocations ensures ListOk(m'.pages, b, m'.allocations[b]) {
      assert ListOk(m.pages, b, m.allocations[b]);
      var left := m'.allocations[b].references;
      assert forall i | 0 <= i < |left| :: left[i] in m.allocations[b].references;
    }
    if |list| == 1 {
      forall q | q in m'.pages ensures m'.pages[q].allocation in m'.allocations {
        assert q in m.pages && q in m.allocations[m.pages[q].allocation].references;
      }
    }
  }

  lemma {:induction false} DroppedInv(m: Memory, outside: int, page: nat)
    requires Inv(m, outside) && page in m.pages && m.pages[page].address == 0
    ensures Inv(Dropped(m, page), outside)
  {
    var m' := Dropped(m, page);
    var a := m.pages[page].allocation;
    DroppedLists(m, page);
    TotalRemove(m.created, a);
    forall x | x in m.mapped ensures Carried(m'.pages, x) {
      var q :| q in m.pages && m.pages[q].address == x;
      assert q in m'.pages && m'.pages[q].address == x;
    }
  }

  /** Memory is released only once nothing is mapped to it. */
  lemma {:induction false} LastUnmapped(m: Memory, outside: int, page: nat, x: nat)
    requires Inv(m, outside) && page in m.pages && m.pages[page].address == 0
    requires m.allocations[m.pages[page].allocation].refs == 1 && x in m.mapped
    ensures m.mapped[x] != m.pages[page].allocation
  {
    var a := m.pages[page].allocation;
    var q :| q in m.pages && m.pages[q].address == x;
    assert ListOk(m.pages, a, m.allocations[a]);
    assert page in m.allocations[a].references;
    assert q in m.allocations[m.mapped[x]].references;
  }

  lemma {:induction false} PageCreated(m: Memory, outside: int, page: nat)
    requires Inv(m, outside) && page in m.pages
    ensures m.pages[page].allocation in m.allocations && m.pages[page].allocation in m.created
  {
  }

  lemma {:induction false} ListFacts(m: Memory, outside: int, page: nat)
    requires Inv(m, outside) && page in m.pages
    ensures m.pages[page].allocation in m.allocations
    ensures var al := m.allocations[m.pages[page].allocation]; NoDuplicates(al.references) && al.refs > 0
  {
    assert ListOk(m.pages, m.pages[page].allocation, m.allocations[m.pages[page].allocation]);
  }

  lemma {:induction false} CreatedSame(m: Memory, outside: int)
    requires Inv(m, outside)
    ensures m.created.Keys == m.allocations.Keys
  {
  }

  ghost predicate Kept(pages: map<nat, Page>, pages': map<nat, Page>) {
    forall p | p in pages :: p in pages' && pages'[p] == pages[p]
  }

  // ---------------------------------------------------------------- runs

  datatype Call = Create(a: nat, p: nat, bytes: nat) | Refer(page: nat, p: nat)
    | Map(page: nat, x: nat) | Join(page: nat, x: nat) | Detach(page: nat) | Drop(page: nat)

  ghost predicate Enabled(m: Memory, c: Call) {
    match c
    case Create(a, p, _) => a !in m.allocations && p !in m.pages
    case Refer(page, p) => page in m.pages && p !in m.pages
    case Map(page, x) => page in m.pages && m.pages[page].address == 0 && x != 0 && x !in m.mapped
    case Join(page, x) =>
      page in m.pages && m.pages[page].address == 0 && x in m.mapped && m.mapped[x] == m.pages[page].allocation
    case Detach(page) => page in m.pages
    case Drop(page) => page in m.pages && m.pages[page].address == 0
  }

  ghost function After(m: Memory, outside: int, c: Call): Memory
    requires Inv(m, outside) && Enabled(m, c)
  {
    match c
    case Create(a, p, bytes) => Created(m, a, p, bytes)
    case Refer(page, p) => Referenced(m, page, p)
    case Map(page, x) => MappedAt(m, page, x)
    case Join(page, x) => Joined(m, page, x)
    case Detach(page) => Detached(m, page)
    case Drop(page) => Dropped(m, page)
  }

  lemma {:induction false} AfterInv(m: Memory, outside: int, c: Call)
    requires Inv(m, outside) && Enabled(m, c)
    ensures Inv(After(m, outside, c), outside)
  {
    match c
    case Create(a, p, bytes) => CreatedInv(m, outside, a, p, bytes);
    case Refer(page, p) => ReferencedInv(m, outside, page, p);
    case Map(page, x) => MappedAtInv(m, outside, page, x);
    case Join(page, x) => JoinedInv(m, outside, page, x);
    case Detach(page) => DetachedInv(m, outside, page);
    case Drop(page) => DroppedInv(m, outside, page);
  }

  lemma {:induction false} AfterKeepsHolder(m: Memory, outside: int, c: Call, p: nat)
    requires Inv(m, outside) && Enabled(m, c)
    requires p in m.pages && m.pages[p].address != 0 && c != Detach(p)
    ensures var m' := After(m, outside, c);
            p in m'.pages && m'.pages[p] == m.pages[p]
  {
    hide Inv;
  }

  lemma {:induction false} HolderMapped(m: Memory, outside: int, p: nat)
    requires Inv(m, outside) && p in m.pages && m.pages[p].address != 0
    ensures m.pages[p].address in m.mapped && m.mapped[m.pages[p].address] == m.pages[p].allocation
  {
  }

  /** Calls in any order, by any holders, as far as they are enabled. */
  ghost predicate IsRun(ms: seq<Memory>, calls: seq<Call>, outside: int) {
    && |ms| == |calls| + 1
    && Inv(ms[0], outside)
    && forall i | 0 <= i < |calls| ::
         Inv(ms[i], outside) ==> Enabled(ms[i], calls[i]) && ms[i + 1] == After(ms[i], outside, calls[i])
  }

  lemma {:induction false} RunInv(ms: seq<Memory>, calls: seq<Call>, outside: int, i: nat)
    requires IsRun(ms, calls, outside) && i < |ms|
    ensures Inv(ms[i], outside)
  {
    if i > 0 {
      RunInv(ms, calls, outside, i - 1);
      AfterInv(ms[i - 1], outside, calls[i - 1]);
    }
  }

  /**
   However many others share its memory or its address and give them up, a mapped
   reference keeps its mapping until it is detached itself.
   */
  lemma {:induction false} HolderKeepsMapping(ms: seq<Memory>, calls: seq<Call>, outside: int, p: nat, i: nat, j: nat)
    requires IsRun(ms, calls, outside) && i <= j < |ms|
    requires p in ms[i].pages && ms[i].pages[p].address != 0
    requires forall k | i <= k < j :: calls[k] != Detach(p)
    ensures p in ms[j].pages && ms[j].pages[p] == ms[i].pages[p]
    ensures ms[i].pages[p].address in ms[j].mapped
    ensures ms[j].mapped[ms[i].pages[p].address] == ms[i].pages[p].allocation
    decreases j
  {
    hide Inv, Enabled, After;
    RunInv(ms, calls, outside, j);
    if i < j {
      HolderKeepsMapping(ms, calls, outside, p, i, j - 1);
      RunInv(ms, calls, outside, j - 1);
      AfterKeepsHolder(ms[j - 1], outside, calls[j - 1], p);
    }
    HolderMapped(ms[j], outside, p);
  }
}
