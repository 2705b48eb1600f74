/**
 `src/vmm-ref.c`: the calls on physical pages.  Each call is one critical section; the
 driver may refuse any request, and then changes nothing.
 */
module VmmRef {
  import opened VmmPages

  class Vmm {
    var pages: map<nat, Page>
    var allocations: map<nat, Allocation>
    var usage: int
    var next: nat

    ghost var mapped: map<nat, nat>

    /** Addresses the device may use. */
    ghost var accessible: set<nat>

    ghost var created: map<nat, nat>

    /** Memory in use that these calls do not account for. */
    ghost const outside: int

    /** Some driver call has failed. */
    ghost var trouble: bool

    /** Driver and host grant whatever is asked for. */
    const willing: bool

    ghost function State(): Memory
      reads this
    {
      Memory(pages, allocations, usage, mapped, created)
    }

    ghost predicate Valid()
      reads this
    {
      && Inv(State(), outside)
      && (forall p | p in pages :: p < next)
      && forall a | a in allocations :: a < next
    }

    // -------------------------------------------------------------- the driver

    method MemCreate(a: nat, bytes: nat) returns (ok: bool)
      requires a !in created
      modifies this`created, this`trouble
      ensures created == if ok then old(created)[a := bytes] else old(created)
      ensures trouble == (old(trouble) || !ok)
      ensures willing ==> ok
    {
      ok := *;
      if willing { ok := true; }
      if ok { created := created[a := bytes]; } else { trouble := true; }
    }

    /** Mapping needs a free address. */
    method MemMap(x: nat, a: nat) returns (ok: bool)
      requires x !in mapped && a in created
      modifies this`mapped, this`trouble
      ensures mapped == if ok then old(mapped)[x := a] else old(mapped)
      ensures trouble == (old(trouble) || !ok)
      ensures willing ==> ok
    {
      ok := *;
      if willing { ok := true; }
      if ok { mapped := mapped[x := a]; } else { trouble := true; }
    }

    method MemSetAccess(x: nat) returns (ok: bool)
      requires x in mapped
      modifies this`accessible, this`trouble
      ensures accessible == if ok then old(accessible) + {x} else old(accessible)
      ensures trouble == (old(trouble) || !ok)
      ensures willing ==> ok
    {
      ok := *;
      if willing { ok := true; }
      if ok { accessible := accessible + {x}; } else { trouble := true; }
    }

    /** A mapping is undone once. */
    method MemUnmap(x: nat) returns (ok: bool)
      requires x in mapped
      modifies this`mapped, this`accessible, this`trouble
      ensures mapped == if ok then old(mapped) - {x} else old(mapped)
      ensures accessible == if ok then old(accessible) - {x} else old(accessible)
      ensures trouble == (old(trouble) || !ok)
      ensures willing ==> ok
    {
      ok := *;
      if willing { ok := true; }
      if ok { mapped, accessible := mapped - {x}, accessible - {x}; } else { trouble := true; }
    }

    /** Memory is released once, when nothing is mapped to it. */
    method MemRelease(a: nat) returns (ok: bool)
      requires a in created && forall x | x in mapped :: mapped[x] != a
      modifies this`created, this`trouble
      ensures created == if ok then old(created) - {a} else old(created)
      ensures trouble == (old(trouble) || !ok)
      ensures willing ==> ok
    {
      ok := *;
      if willing { ok := true; }
      if ok { created := created - {a}; } else { trouble := true; }
    }

    // -------------------------------------------------------------- the calls

    /** `physical_page_alloc`. */
    method PageAlloc(bytes: nat) returns (ok: bool, page: nat)
      requires Valid()
      modifies this
      ensures Valid() && next >= old(next)
      ensures ok ==> page == old(next) < next && State() == Created(old(State()), page, page, bytes)
      ensures !ok ==> State() == old(State())
      ensures old(trouble) ==> trouble
      ensures willing ==> ok
      ensures accessible == old(accessible)
    {
      hide Inv;
      page := next;
      CreatedSame(State(), outside);
      ok := *;
      if willing { ok := true; }
      if ok {
        CreatedInv(State(), outside, page, page, bytes);
        ok := MemCreate(page, bytes);
      }
      if ok {
        allocations := allocations[page := Allocation(bytes, 1, [page])];
        pages := pages[page := Page(page, 0)];
        usage := usage + bytes;
        next := next + 1;
      }
    }

    /** `physical_page_ref`, as all callers use it: a reference that is not mapped yet. */
    method PageRef(page: nat) returns (ok: bool, p: nat)
      requires Valid() && page in pages
      modifies this
      ensures Valid() && next >= old(next)
      ensures ok ==> p == old(next) < next && State() == Referenced(old(State()), page, p)
      ensures !ok ==> State() == old(State())
      ensures trouble == old(trouble)
      ensures willing ==> ok
      ensures accessible == old(accessible)
    {
      hide Inv;
      p := next;
      PageCreated(State(), outside, page);
      ok := *;
      if willing { ok := true; }
      if ok {
        ReferencedInv(State(), outside, page, p);
        var a := pages[page].allocation;
        var al := allocations[a];
        allocations := allocations[a := al.(refs := al.refs + 1, references := [p] + al.references)];
        pages := pages[p := Page(a, 0)];
        next := next + 1;
      }
    }

    /** Where `page` stands on the list of its allocation. */
    method FindEntry(page: nat) returns (entry: nat)
      requires Valid() && page in pages
      ensures var list := allocations[pages[page].allocation].references;
              entry < |list| && list[entry] == page
    {
      var list := allocations[pages[page].allocation].references;
      entry := 0;
      while list[entry] != page
        invariant entry < |list| && page in list[entry..]
        decreases |list| - entry
      {
        entry := entry + 1;
      }
    }

    /** Does another reference of the same memory carry the address of `page`? */
    method FindSharer(page: nat) returns (found: bool)
      requires Valid() && page in pages && pages[page].address != 0
      ensures found == SharesAddress(State(), page)
    {
      var a := pages[page].allocation;
      var list := allocations[a].references;
      assert ListOk(pages, a, allocations[a]);
      var i := 0;
      while i < |list| && (list[i] == page || pages[list[i]].address != pages[page].address)
        invariant i <= |list|
        invariant forall j | 0 <= j < i :: list[j] == page || pages[list[j]].address != pages[page].address
        decreases |list| - i
      {
        i := i + 1;
      }
      found := i < |list|;
      if found {
        assert pages[list[i]] == pages[page];
      }
    }

    /** The first half of `physical_page_unref`: give up the address. */
    method Detach(page: nat) returns (ok: bool)
      requires Valid() && page in pages
      modifies this
      ensures Valid() && next == old(next)
      ensures State() == if ok then Detached(old(State()), page) else old(State())
      ensures trouble == (old(trouble) || !ok)
      ensures willing ==> ok
      ensures accessible - {old(pages[page].address)} == old(accessible) - {old(pages[page].address)}
      ensures old(pages[page].address) == 0 ==> accessible == old(accessible)
    {
      hide Inv;
      ghost var m := State();
      DetachedInv(m, outside, page);
      var x := pages[page].address;
      if x != 0 {
        var shared := FindSharer(page);
        if !shared {
          HolderMapped(m, outside, page);
          ok := MemUnmap(x);
          if !ok { return; }
        }
        pages := pages[page := pages[page].(address := 0)];
      }
      ok := true;
      assert State() == Detached(m, page);
    }

    /** The second half: leave the list, and release the memory with the last reference. */
    method Drop(page: nat, entry: nat) returns (ok: bool)
      requires Valid() && page in pages && pages[page].address == 0
      requires var list := allocations[pages[page].allocation].references;
               entry < |list| && list[entry] == page
      modifies this
      ensures Valid() && next == old(next)
      ensures State() == if ok then Dropped(old(State()), page) else old(State())
      ensures trouble == (old(trouble) || !ok)
      ensures willing ==> ok
      ensures accessible == old(accessible)
    {
      hide Inv, Without;
      ghost var m := State();
      PageCreated(m, outside, page);
      ListFacts(m, outside, page);
      var a := pages[page].allocation;
      var al := allocations[a];
      DroppedInv(m, outside, page);
      WithoutAt(al.references, entry);
      if al.refs == 1 {
        forall x | x in mapped ensures mapped[x] != a { LastUnmapped(m, outside, page, x); }
        ok := MemRelease(a);
        if !ok { return; }
      }
      ok := true;
      if al.refs == 1 {
        usage := usage - al.bytes;
        allocations := allocations - {a};
      } else {
        allocations := allocations[a := al.(refs := al.refs - 1,
                                            references := al.references[..entry] + al.references[entry + 1..])];
      }
      pages := pages - {page};
    }

    /** `physical_page_unref`. */
    method PageUnref(page: nat) returns (ok: bool)
      requires Valid() && page in pages
      modifies this
      ensures Valid() && next == old(next)
      ensures ok ==> State() == Dropped(Detached(old(State()), page), page)
      ensures !ok ==> State() == old(State()) || State() == Detached(old(State()), page)
      ensures trouble == (old(trouble) || !ok)
      ensures willing ==> ok
      ensures accessible - {old(pages[page].address)} == old(accessible) - {old(pages[page].address)}
      ensures old(pages[page].address) == 0 ==> accessible == old(accessible)
    {
      var entry := FindEntry(page);
      ok := Detach(page);
      if ok {
        ok := Drop(page, entry);
      }
    }

    /** Map the memory of a fresh reference at a free address and let the device use it. */
    method MapFresh(x: nat, reference: nat) returns (ok: bool)
      requires Valid() && reference in pages && pages[reference].address == 0 && x != 0 && x !in mapped
      modifies this`pages, this`mapped, this`accessible, this`trouble
      ensures ok ==> accessible == old(accessible) + {x}
      ensures old(accessible) <= accessible <= old(accessible) + {x}
      ensures Valid()
      ensures State() == MappedAt(old(State()), reference, x) || (!ok && State() == old(State()))
      ensures trouble == (old(trouble) || !ok)
      ensures willing ==> ok
    {
      hide Inv;
      ghost var m := State();
      PageCreated(m, outside, reference);
      MappedAtInv(m, outside, reference, x);
      ok := MemMap(x, pages[reference].allocation);
      if ok {
        pages := pages[reference := pages[reference].(address := x)];
        ok := MemSetAccess(x);
      }
    }

    /**
     `map_reference` of the allocation graph: one more reference, mapped at a free address.
     On failure every reference that was there is still there, unchanged.
     */
    method MapReference(x: nat, page: nat) returns (ok: bool, reference: nat)
      requires Valid() && page in pages && x != 0 && x !in mapped
      modifies this
      ensures Valid() && next >= old(next)
      ensures ok ==> reference == old(next) < next
                     && State() == MappedAt(Referenced(old(State()), page, reference), reference, x)
      ensures ok ==> accessible == old(accessible) + {x}
      ensures accessible - {x} == old(accessible) - {x}
      ensures Kept(old(pages), pages)
      ensures forall q | q in pages && q !in old(pages) :: pages[q].address == 0 || pages[q].address == x
      ensures old(trouble) ==> trouble
      ensures willing ==> ok
    {
      hide Inv;
      ghost var m := State();
      PageCreated(m, outside, page);
      ok, reference := PageRef(page);
      if !ok { return; }
      ok := MapFresh(x, reference);
      if !ok {
        var _ := PageUnref(reference);
      }
    }

    /** A handed-over reference joins the mapping the graph holds. */
    method Join(reference: nat, x: nat)
      requires Valid() && reference in pages && pages[reference].address == 0
      requires x in mapped && mapped[x] == pages[reference].allocation
      modifies this`pages
      ensures Valid() && State() == Joined(old(State()), reference, x)
    {
      JoinedInv(State(), outside, reference, x);
      pages := pages[reference := pages[reference].(address := x)];
    }
  }
}
