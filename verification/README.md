# A verified model of the GPU memory core

This project models, in Dafny, the parts of the repository that decide which memory is
used for what, and proves that they do it safely:

- **The allocation graph** (`GraphTables` to `MallocGraph`, `GraphWitness`). A record and
  replay allocator: virtual pages alias physical pages, calls are recorded as a tree of
  events with nested scopes, and a replay takes its pointers from the tree. `MallocGraph`
  is the allocator itself, as a class; each of its calls is proved to be one `Step` of
  the specification in `GraphOps`, and the theorems about runs (`GraphRuns`, `GraphRepeat`)
  are proved of those steps.
  Every tree node carries a *note*: the tables recording had just after that event. It is
  not in the program; it is what `materialize` is compared with.
- **The small heap** (`SmallHeap`). The interval sweep that places blocks below 4 MiB.
- **Physical pages and escaped allocations** (`VmmPages`, `VmmRef`, `RoguePages`). Reference
  counts, shared mappings, the handoff of allocations that outlive their scope, and the
  replacement of their memory under every alias. The driver is a ghost map from addresses
  to memory; any of its calls may fail.
- **Escaped pointers among threads** (`RogueProtocol`).
- **The VBAR offloader** (`VbarPages`, `Vbars`). A priority list of models whose weights are
  loaded and evicted page by page; signatures prove cached weights valid.
- **Pipelines**: the asynchronous file reader (`FileReader`), the parallel read
  (`XferFile`), the prewarm pool (`Prewarm`), the decommit queue (`Decommit`), and the host
  buffer that uses the last two (`HostBuffers`). `Basics` holds what several modules share.

State that the program changes in place is the state of a class, whose methods are proved
against functions or relations on values; the long-run properties are lemmas about those.
Concurrent code is a machine whose steps are the critical sections and what lies between
two of them. Page counts are parameters where the program has 8192 or a device's capacity.

What the driver answers is an input. An allocation of the graph is given how many pages the
driver still grants, a fault what budget and driver say of each page; and it is proved that
such a call fails for no other reason. Elsewhere any call of the driver or of host memory
may fail; a constant `willing` of the class stands for one that never does, and then the
operations fail only where the program itself says no. Sizes are claimed byte by byte: a
block, a faulted range or a range to touch is all the bytes asked for.

## What the code does not do

Six properties one would expect are false of the code. Each is stated with an input and with
the exact condition under which it holds.

- *A scope that leaves nothing alive is neutral.* Not always: `pop` never rebuilds the
  tables. If a nested scope breaks while the scope around it replays and holds a block, and
  a scope further out records, the outer scope goes on with tables that still contain that
  block after it is freed, and `used` counts it for ever. No two live blocks overlap even
  so (`GraphRuns.RunSafe`). `GraphReplay.PopExactIff` says exactly when closing a scope is
  neutral, `GraphWitness.NeutralityFails` is a run of fourteen calls in which it is not, and
  `GraphRuns.RunRebuilds` and `GraphRuns.RunNeutral` hold from any exact state on.
- *What was recorded is replayed when it is repeated.* Not always: a recording scope does not
  look for its allocations and frees among the children of its node. If a replay breaks on a
  new nested scope, the node it stands at may have a child that matches what comes next; that
  is recorded beside it, and a repetition is led to the older one. `GraphRepeat.RepeatsIff`
  has the exact condition: each allocation and free of the first pass was *fresh*, that is,
  went to the first child that matches it if there was one. `GraphWitness.RepeatMisses` is
  a run of nineteen calls of which the last five repeat five earlier ones; the last of them
  is led to node 7, where recording had gone to node 12.
- *A small block avoids every page of an escaped block.* The end kept for a far interval is
  carried over to a near one, so the sweep may stop at a high-water mark that lies inside
  such a page. `SmallHeap.SmallOffset` says of which inputs that is so;
  `SmallHeap.RoguePageHandedOut` is one. The escaped blocks themselves and all live ranges
  are always avoided.
- *Finalising escaped allocations always succeeds or fails cleanly.* The walk drops
  `mapped_pages[va]` without asking whether it is null. It is null for an escaped page, so a
  second escape through another alias of the same physical page, while the first is still
  held, ends in a null dereference. `RoguePages.GraphPages.FinalizeRogues` and
  `RoguePages.GraphPages.Escape` say exactly when they crash; `RoguePages.SecondAliasCrashes`
  builds such a graph from nothing (`GraphSearch.AliasesArise` is how the search comes to
  its page map) and runs into it.
- *Freeing a host buffer gives its range back.* Freeing always unregisters at the start of
  the buffer, and truncation to zero refuses an empty buffer. So the range is leaked when
  nothing was registered there, when the buffer is reserved but empty, as a failed first
  growth leaves it, and when the driver or the queue refuses. `HostBuffers.HostBuffer.Free`
  has the condition, `HostBuffers.UnregisteredIsLeaked` and
  `HostBuffers.FailedGrowthIsLeaked` two of the cases. A truncation that cannot allocate a
  job behind others leaves the buffer claiming bytes that are already on their way out
  (`HostBuffers.HostBuffer.Truncate`).
- *`last_chunk_size` is at most `size`.* Truncating to `n` keeps it so exactly when
  `last_chunk_size <= n`, and a reallocation that takes the chunk back and then cannot grow
  exactly when twice `last_chunk_size` is at most the old size. Otherwise the next
  reallocation subtracts too much and the size wraps around: `HostBuffers.HostBuffer.Extend`
  says exactly when, `HostBuffers.ReallocationWraps` is such a run.

## Model

| member | source | states |
|---|---|---|
| GraphRuns.RunSafe | src/malloc-graph.c:866-1041 | in every run of recording, replay and breaks, the blocks held over all open scopes share no byte of the sizes asked for: each small one lies inside the heap, the page of every byte of a large one is mapped, and `used` is what the tables account for |
| GraphRuns.RunGives | src/malloc-graph.c:866-985 | in every run each block given, replayed or recorded, has the size asked for and the kind that size calls for, has all its bytes in mapped memory, starts at an aligned offset when small, is not one the client holds in any scope, shares no byte with those it holds, and is none of the escaped memory; the top scope then holds it as well |
| GraphRuns.RunReplays | src/malloc-graph.c:876-888 | in every run a replaying scope that stands before a recorded allocation of the size asked for, none of whose bytes escaped, is answered from the record: a block of that size, no driver, no change but in the cursor and in what the client holds |
| GraphRuns.RunReuses | src/malloc-graph.c:932-955 | in every run a recorded large allocation needs no new page, whatever the driver would grant, if anywhere in the range there is a window of distinct physical pages none of which is live or escaped |
| GraphReplay.HeldOnce | src/malloc-graph.c:250-266 | the set of blocks a scope holds loses nothing: two allocations it has alive are two blocks with no byte in common |
| GraphRun.ClientDisjoint | src/malloc-graph.c:932-984 | the invariant implies that no two blocks held, in the same or in nested scopes, share a byte of the sizes asked for, although virtual pages alias |
| GraphRuns.RunRebuilds | src/malloc-graph.c:528-545 | if recording stood at a node in an exact state, a replay that breaks at that node after any calls rebuilds exactly the tables, tracked list and `used` recording had, without raising the peak |
| GraphRuns.RunPeak | src/malloc-graph.c:180-192 | in every run the peak is the most that was ever in use: no state used more, and one used just that |
| GraphRuns.RunNeutral | src/malloc-graph.c:1108-1191 | between two visits of a recording scope to one node, the first in an exact state, nested scopes that close neutrally leave tables, tracked list and `used` the same, whatever they did |
| GraphReplay.PopExactIff | src/malloc-graph.c:1159-1191 | closing an empty scope leaves the working tables true exactly when no replaying scope between it and the nearest recording one holds a block, or the closed one never recorded |
| GraphWitness.NeutralityFails | src/malloc-graph.c:1159-1191 | a reachable state in which the client holds nothing, the root records at its start, and `used` still counts a freed block |
| GraphWitness.IsARun | src/malloc-graph.c:866-1191 | the fourteen calls of that run are steps of the allocator |
| GraphRuns.StepInv | src/malloc-graph.c:866-1191 | every call keeps the invariant and only extends the tree, or fails the graph |
| GraphRuns.StepExact | src/malloc-graph.c:866-1191 | every call but a non-neutral pop keeps the working tables equal to the recorded view |
| GraphRuns.RunInv | src/malloc-graph.c:1043-1083 | the invariant holds in every state of every run from a new graph, unless the graph has failed |
| GraphRuns.RunExact | src/malloc-graph.c:528-545 | from any exact state on, as long as scopes close neutrally, the working tables are those of the innermost recording scope |
| GraphRuns.NeutralRunExact | src/malloc-graph.c:1043-1083 | a run begins exact, so a neutral one is exact throughout |
| GraphReplay.StartedExact | src/malloc-graph.c:792-800 | a break makes the working tables exact again, even if they were not |
| GraphRepeat.RepeatsIff | src/malloc-graph.c:876-888 | a scope that repeats the calls it once made is led along the nodes of the first pass if and only if each allocation and free of that pass was fresh; it then gets the same replies and changes no tree, table, usage or page map |
| GraphRepeat.StepFollows | src/malloc-graph.c:203-234 | one call repeated in a tree that has grown since goes to the same node exactly if it was fresh, and records nothing |
| GraphRepeat.NewPass | src/malloc-graph.c:1108-1120 | a new pass from the root stands where every earlier pass, the recording one included, began |
| GraphRepeat.RunKeepsChildren | src/malloc-graph.c:194-201 | in every run the children of a node are only appended to |
| GraphWitness.RepeatMisses | src/malloc-graph.c:1001-1027 | a run of nineteen calls: a scope broken by a new nested scope records a free beside one that matches it, and the next pass, with the same calls, is led to the older one |
| GraphRuns.RunExtends | src/malloc-graph.c:194-201 | nothing that was recorded is changed later |
| GraphRuns.FailedStays | src/malloc-graph.c:140-149 | a failed graph answers no call and never changes again |
| GraphSafety.StepAllocInv | src/malloc-graph.c:866-985 | an allocation, replayed or recorded, keeps the invariant and exactness; the bytes of its block are new to the client and avoid what it holds and what escaped |
| GraphSafety.StepFreeInv | src/malloc-graph.c:987-1041 | a free is accepted exactly when the current scope itself holds a block there, unless the graph must not break |
| GraphSafety.StepPushInv | src/malloc-graph.c:1108-1157 | entering a recorded or a new scope keeps the invariant and exactness |
| GraphSafety.StepPopInv | src/malloc-graph.c:1159-1191 | closing an empty scope keeps the invariant, and exactness exactly when it is neutral |
| GraphFree.FreeAcceptedIff | src/malloc-graph.c:1014-1033 | while recording, the checks on owner depth and tracked list pass exactly for blocks of the current scope |
| GraphReplay.ReplayAllocInv | src/malloc-graph.c:876-888 | a replayed allocation hands out the recorded pointer, which the client does not hold and which shares no byte with what it holds, and touches no table |
| GraphReplay.ReplayFreeInv | src/malloc-graph.c:1001-1012 | a replayed free is of a block the current scope holds and takes exactly that one |
| GraphReplay.RebuildIsRecorded | src/malloc-graph.c:528-545 | from an exact state, a later break at the same node restores that state |
| GraphSteps.RecordedInv | src/malloc-graph.c:236-248 | an event that fits the view extends the tree, the client's blocks and the counters consistently |
| GraphSteps.StartedInv | src/malloc-graph.c:792-800 | switching a replaying scope to recording keeps the invariant |
| GraphSteps.PushNewInv | src/malloc-graph.c:408-421 | a new scope is entered with a snapshot of the current tables |
| GraphSteps.PushReplayInv | src/malloc-graph.c:1108-1157 | a recorded scope is entered at its start, replaying |
| GraphSteps.PushRootInv | src/malloc-graph.c:1108-1157 | a complete graph is replayed from its root |
| GraphSteps.PoppedInv | src/malloc-graph.c:1159-1191 | the scope below goes on at its own cursor |
| GraphAlloc.AllocatedLargeInv | src/malloc-graph.c:965-984 | recording a large allocation in a free window keeps live allocations disjoint |
| GraphAlloc.AllocatedSmallInv | src/malloc-graph.c:915-927 | recording a small allocation of `size` bytes, rounded up to the alignment, in a free aligned span keeps ranges sorted, aligned and disjoint |
| GraphFree.FreedLargeInv | src/malloc-graph.c:1030-1040 | freeing a large allocation releases exactly its physical pages |
| GraphFree.FreedSmallInv | src/malloc-graph.c:1014-1027 | freeing a small allocation removes exactly its range |
| GraphFree.EndedInv | src/malloc-graph.c:1159-1191 | recording the end of a scope changes neither tables nor blocks |
| GraphTree.ScopeNeutral | src/malloc-graph.c:408-421 | a view with nothing tracked equals the tables its scope was entered with |
| GraphRun.ChainIncludes | src/malloc-graph.c:408-421 | what an open scope has alive is part of every view of the scopes inside it |
| GraphTotals.NodeAdds | src/malloc-graph.c:476-526 | between the views of a node and its parent, the total changes by what the node's event says |
| GraphSearch.LargePlanFree | src/malloc-graph.c:930-975 | the window taken, old or new, has distinct physical pages, none live, none of an escaped candidate |
| GraphSearch.MapNewOk | src/malloc-graph.c:965-975 | new virtual pages get pairwise distinct physical pages that are not busy, and no more physical pages exist than are mapped |
| GraphSearch.AliasesArise | src/malloc-graph.c:965-975 | with one page freed, a window of two new virtual pages makes the first alias the freed one |
| GraphSearch.BlockedWindow | src/malloc-graph.c:947-954 | every window that contains the blocking page is unusable, so the search skips no usable one |
| GraphTables.IncludesTotal | src/malloc-graph.c:180-192 | tables that include others account for at least as many bytes |
| GraphTables.SortedUnique | src/malloc-graph.c:893-896 | a sorted range list is determined by its members |
| GraphTables.InsertSmallOk | src/malloc-graph.c:893-919 | inserting a range that overlaps none keeps the list sorted, disjoint and inside the heap |
| MallocGraphs.MallocGraph.constructor | src/malloc-graph.c:1043-1083 | a new graph is in the initial state |
| MallocGraphs.MallocGraph.Allocate | src/malloc-graph.c:866-985 | one allocation call is one step: the recorded pointer, or the lowest usable window, or the heap's offset; it fails only when a break is forbidden, a limit is reached or the driver provides too few pages |
| MallocGraphs.MallocGraph.Deallocate | src/malloc-graph.c:987-1041 | one free call is one step |
| MallocGraphs.MallocGraph.Push | src/malloc-graph.c:1108-1157 | entering a named scope is one step |
| MallocGraphs.MallocGraph.Replay | src/malloc-graph.c:1108-1157 | starting a complete graph over is one step |
| MallocGraphs.MallocGraph.Pop | src/malloc-graph.c:1159-1191 | closing a scope is one step |
| MallocGraphs.MallocGraph.Materialize | src/malloc-graph.c:528-545 | snapshot plus path give exactly the noted tables and tracked list, and `used` their total |
| MallocGraphs.MallocGraph.DryApply | src/malloc-graph.c:476-526 | applying one event to the noted view of its parent gives the noted view of the node |
| MallocGraphs.MallocGraph.StartRecording | src/malloc-graph.c:792-800 | the state recording resumes from; refused when breaks are not allowed |
| MallocGraphs.MallocGraph.Find | src/malloc-graph.c:203-234 | the first child of the cursor that matches the call |
| MallocGraphs.MallocGraph.SearchWindow | src/malloc-graph.c:932-955 | the lowest window with distinct, free pages, flagged live; every rejected window's flags are restored |
| MallocGraphs.MallocGraph.TakeWhileFree | src/malloc-graph.c:935-943 | flags a window page by page up to the first page that blocks it |
| MallocGraphs.MallocGraph.PlaceLarge | src/malloc-graph.c:930-975 | extends the range only when no usable window exists, and refuses only when its limit or the driver leaves no room |
| MallocGraphs.MallocGraph.MapWindow | src/malloc-graph.c:965-975 | each new virtual page gets the lowest physical page that is not busy; stops only where the driver does |
| MallocGraphs.MallocGraph.PlaceSmall | src/malloc-graph.c:892-913 | the aligned offset chosen is that of the sweep and avoids live ranges; at most one new page is needed, and it is refused only when the heap's limit or the driver leaves no room |
| MallocGraphs.MallocGraph.CommitSmall | src/malloc-graph.c:915-926 | range, event, tracked list and counters after a small allocation |
| MallocGraphs.MallocGraph.CommitLarge | src/malloc-graph.c:977-984 | entry, event, tracked list and counters after a large allocation |
| MallocGraphs.MallocGraph.CommitFreeSmall | src/malloc-graph.c:1014-1027 | the range goes exactly when the scope tracks its allocation |
| MallocGraphs.MallocGraph.CommitFreeLarge | src/malloc-graph.c:1030-1040 | pages and flags go exactly when the scope tracks the allocation |
| MallocGraphs.MallocGraph.AllocationUsed | src/malloc-graph.c:180-192 | counts one page size per live physical page and the bytes of all small ranges |
| MallocGraphs.MallocGraph.UntrackAllocation | src/malloc-graph.c:255-266 | takes one allocation off the tracked list, or reports that it is not there |
| MallocGraphs.MallocGraph.AppendEvent | src/malloc-graph.c:194-201 | a new node under the cursor, which moves to it |
| SmallHeap.SmallOffset | src/malloc-graph.c:819-864 | an aligned offset: the leftmost smallest gap between obstacles that fits, else the high-water mark; never meets a live range or an escaped block; meets a page of one exactly when no gap before the mark has room, the chain of obstacles ends at the mark, and the mark lies inside such a page |
| SmallHeap.PlacedOnce | src/malloc-graph.c:819-864 | that placement is determined by the obstacles: two offsets that satisfy it are one |
| SmallHeap.SweepOne | src/malloc-graph.c:826-858 | one gap of the sweep keeps the best hole among the gaps so far, escaped blocks included, and goes on exactly if an obstacle lies before the mark |
| SmallHeap.NextObstacle | src/malloc-graph.c:826-845 | the nearest interval after a position, and nothing before it that is in the way |
| SmallHeap.ConsiderOk | src/malloc-graph.c:802-817 | one interval met: the nearest start is kept, and of two ends the further one unless the new start is nearer; what was clear stays clear |
| SmallHeap.SpanIs | src/malloc-graph.c:839-843 | an escaped block stands for the whole pages from its first byte to its last, and no more |
| SmallHeap.OnePageEnough | src/malloc-graph.c:898-913 | one new page is always enough for a small allocation |
| SmallHeap.RoguePageHandedOut | src/malloc-graph.c:802-817 | two escaped blocks and a live range for which the offset lies on an escaped page, and not in the other list order |
| VmmPages.RunInv | src/vmm-ref.c:43-127 | over any calls by any holders, counts equal list lengths, an address is mapped exactly when a reference carries it, and usage is the bytes not released |
| VmmPages.HolderKeepsMapping | src/vmm-ref.c:73-127 | a mapped reference keeps address, memory and mapping until it is given up itself, whatever others do |
| VmmPages.AfterInv | src/vmm-ref.c:43-127 | every call keeps lists, mappings and usage consistent |
| VmmPages.DetachedInv | src/vmm-ref.c:96-111 | giving up an address unmaps it exactly when nobody else carries it |
| VmmPages.DroppedInv | src/vmm-ref.c:112-126 | leaving the list releases the memory exactly with the last reference |
| VmmPages.LastUnmapped | src/vmm-ref.c:112-116 | when the last reference goes, nothing is mapped to the memory |
| VmmPages.WithoutAt | src/vmm-ref.c:91-95 | unlinking the entry found is removing that reference |
| VmmRef.Vmm.PageAlloc | src/vmm-ref.c:43-71 | new memory with one reference, counted in usage; nothing on failure |
| VmmRef.Vmm.PageRef | src/vmm-ref.c:73-86 | one more reference at the head of the list |
| VmmRef.Vmm.PageUnref | src/vmm-ref.c:88-127 | the whole new state on success; on failure all other references and the invariant are intact |
| VmmRef.Vmm.FindSharer | src/vmm-ref.c:97-103 | finds another reference with the same address exactly when there is one |
| VmmRef.Vmm.MemUnmap | src/vmm-ref.c:104-105 | each mapping is undone once: the call needs a mapped address |
| VmmRef.Vmm.MemRelease | src/vmm-ref.c:112-116 | memory is released once, with nothing mapped to it |
| VmmRef.Vmm.MapReference | src/malloc-graph.c:435-455 | a mapped, accessible reference on success; on failure every earlier reference is unchanged, and so is the access of every other address |
| RoguePages.GraphPages.EscapeAndDestroy | src/malloc-graph.c:587-777 | allocations escape, the graph and others make any calls, the graph is destroyed: every escaped page is still mapped, and to its original memory |
| RoguePages.GraphPages.HandOverAndDestroy | src/malloc-graph.c:660-687 | destroying a graph with open scopes hands over what they hold, and destroys nothing if that fails; every escaped page stays mapped to its original memory, and no reference of the graph is left unless the driver refuses |
| RoguePages.GraphPages.HandoffRogues | src/malloc-graph.c:587-649 | all candidates in turn: every page that escapes has a reference of its own to its memory, and memory is shared with others only under those |
| RoguePages.GraphPages.LiveOn | src/malloc-graph.c:331-474 | any calls by the graph itself, mapping, reviving, escaping, and by others leave the graph valid and kept references as they are |
| RoguePages.GraphPages.Escape | src/malloc-graph.c:587-777 | from handoff through finalisation every escaped page keeps a mapping to its original memory, and no memory of another holder is left within the graph's reach; whatever fails, the references that went out stay as they are |
| RoguePages.GraphPages.FinalizeRogues | src/malloc-graph.c:689-777 | every alias of an escaped page maps the replacement afterwards and black holes are let go of; it dereferences null exactly when the replacements exist and a page without a mapping lies on a replaced physical page; references of others are untouched even then |
| RoguePages.SecondAliasCrashes | src/malloc-graph.c:732-749 | two virtual pages on one physical page, the second escaping while the first is held: the finalisation crashes as soon as it has its replacements |
| RoguePages.GraphPages.RemapAll | src/malloc-graph.c:732-749 | the walk over the virtual pages: who is remapped, who loses its mapping, and exactly when it crashes |
| RoguePages.GraphPages.SwapPhysical | src/malloc-graph.c:750-756 | the replacements take the places of the physical pages, each old one given up once |
| RoguePages.GraphPages.CreateReplacements | src/malloc-graph.c:694-730 | new memory for exactly the physical pages under escaped allocations, or all given back |
| RoguePages.GraphPages.Handoff | src/malloc-graph.c:594-642 | one large candidate: a reference per page at its own address, and its pages marked as black holes |
| RoguePages.HandoffRogue | src/malloc-rogue.c:64-124 | one reference per page joining the existing mapping, or everything given back |
| RoguePages.GraphPages.Revive | src/malloc-graph.c:331-345 | a black hole whose escaped allocation is gone becomes an ordinary page again |
| RoguePages.GraphPages.MapPage | src/malloc-graph.c:457-474 | one more virtual page, on a physical page there is or on new memory, keeps all the invariants; nothing else is mapped or moved |
| RoguePages.GraphPages.Destroy | src/malloc-graph.c:1259-1275 | destroying the graph gives back exactly what it holds; references of others keep their pages |
| RoguePages.ApartAfter | src/malloc-graph.c:732-757 | after replacement no physical page of the graph is memory of any other holder |
| RoguePages.SlotsHanded | src/malloc-graph.c:594-642 | handing over one allocation disturbs no other virtual page |
| RogueProtocol.DroppedExactlyOnce | src/malloc-rogue.c:136-189 | in every interleaving a reference is given back at most once, never while the entry is free to take, and exactly once when there is no entry and no thread is at work on it |
| RogueProtocol.GoneIsDropped | src/malloc-rogue.c:165-189 | an entry that was listed and no longer is has had each of its references given back exactly once, whatever threads do |
| RogueProtocol.SingleEntry | src/malloc-rogue.c:98-165 | in every run no two candidates, no two entries, and no candidate and entry have one pointer |
| RogueProtocol.FreedBeforeHandoff | src/malloc-rogue.c:64-124 | a free of an announced pointer before its handoff is decided refuses the handoff, and no entry ever exists for it |
| RogueProtocol.RepeatedFree | src/malloc-rogue.c:158-163 | a free while another is at work succeeds and changes nothing |
| RogueProtocol.FreeTakesEntry | src/malloc-rogue.c:136-165 | a free of a pointer that has an entry, and no thread at work on it, takes the one entry there is |
| RogueProtocol.AnnouncedIsOwned | src/malloc-rogue.c:98-113 | in every run a pointer announced and neither freed, withdrawn nor decided before is owned by its handoff: the entry is there, not being freed |
| RogueProtocol.DecisionIs | src/malloc-rogue.c:98-113 | a handoff is owned exactly if the first candidate of its pointer is not marked as freed, refused as freed exactly if it is, and fails exactly if there is none |
| RogueProtocol.FreeIs | src/malloc-rogue.c:136-165 | a free finds a fresh entry, one being freed, or, without an entry, a candidate, or nothing, each exactly when that is so |
| RogueProtocol.MarkedIs | src/malloc-rogue.c:142-155 | marking changes the first candidate of the pointer and no other |
| RogueProtocol.OneForEachPage | src/malloc-rogue.c:64-96 | in every run an escape holds one reference for each of its pages and one for its range |
| RogueProtocol.NeverStuck | src/malloc-rogue.c:64-189 | in every run a thread at work can take its next step, and an idle one can start |
| RogueProtocol.WorkEnds | src/malloc-rogue.c:64-189 | from every state of every run a thread at work that goes on alone comes to rest: its handoff stands with its entry, or there is no entry and each of its references was given back once |
| RogueProtocol.RunInv | src/malloc-rogue.c:64-189 | lists, threads and outcomes agree in every interleaving |
| RogueProtocol.MarkedStays | src/malloc-rogue.c:142-155 | a candidate marked as freed stays so until its handoff or withdrawal |
| RogueProtocol.RogueLists.Decide | src/malloc-rogue.c:98-113 | owned exactly if the first candidate of the pointer is there and not marked as freed, and then a new entry heads the list; that candidate, and no other, is gone |
| RogueProtocol.RogueLists.BeginFree | src/malloc-rogue.c:136-165 | the free's first critical section: a fresh entry is taken, one being freed is left, without an entry the first candidate is marked, and nothing else changes |
| RogueProtocol.RogueLists.EndFree | src/malloc-rogue.c:179-185 | the entry leaves the list, and only that one |
| RogueProtocol.RogueLists.Unregister | src/malloc-rogue.c:21-51 | the first candidate of the pointer goes |
| RogueProtocol.RogueLists.Exists | src/malloc-rogue.c:126-134 | true exactly when some entry has the pointer |
| RogueProtocol.RogueLists.CandidateFreed | src/malloc-rogue.c:53-62 | true exactly when a handoff now would find the pointer freed |
| VbarPages.SignatureProof | src/model-vbar.c:371-416 | between two successful faults with one signature and fewer than 2^32 loads, the page was resident with one serial at every point |
| VbarPages.SignatureWraps | src/model-vbar.c:371-416 | the bound is sharp: a history of 2^32 loads ends with the signature it began with, and the page was gone in between |
| VbarPages.PinnedKept | src/model-vbar.c:94-111 | as long as it is pinned, a page is neither evicted nor loaded again |
| VbarPages.OutstandingKept | src/model-vbar.c:94-111 | a page is pinned as long as unpins have not caught up with faults, and so keeps its contents |
| VbarPages.PinsBalance | src/model-vbar.c:430-455 | over any calls the pin count is what it was, plus successful faults, less unpins, as long as unpins do not run ahead |
| VbarPages.UnpinnedAsFaulted | src/model-vbar.c:430-455 | a page unpinned as often as it was faulted since it last had no pin has none, and may be evicted if resident |
| VbarPages.EvictableSet | src/model-vbar.c:94-111 | the pages eviction may take are the resident ones without a pin, each counted once |
| VbarPages.LoweredOk | src/model-vbar.c:129-142 | lowering a watermark with eviction keeps a VBAR's invariant and leaves pinned pages alone |
| Vbars.Device.FaultTwice | src/model-vbar.c:346-427 | two successful faults of one range with one signature, and any calls between them: at every point between, the page of each byte of it was resident with one serial |
| Vbars.Device.FaultAndKeep | src/model-vbar.c:346-427 | after a successful fault, through any calls, the page of each byte of the range keeps its contents as long as it is pinned, and it is pinned as long as it is outstanding |
| Vbars.Device.AnyCalls | src/model-vbar.c:94-539 | any number of calls of any kinds on any VBARs yields a history to which the page lemmas apply |
| Vbars.Device.AnyCall | src/model-vbar.c:94-539 | any call keeps residency, pins, counters and usage consistent, and leaves a page pinned before and after as it is |
| Vbars.Device.Fault | src/model-vbar.c:346-427 | on success the page of every byte of the range is resident, pinned once more, below the watermark, and carries its serial in the signature; otherwise pins are unchanged. Out of memory exactly if the range ends above the watermark afterwards, an error only if the driver denied a page. If anything was loaded, the headroom is free or every VBAR is at its limit. With room for all and a driver that agrees it succeeds and touches only its range |
| Vbars.Device.FaultRange | src/model-vbar.c:370-416 | the loop of a fault, although evictions inside it may lower the same watermark; what it loads, it loads within the budget |
| Vbars.Device.FaultPage | src/model-vbar.c:396-412 | one page, with one more eviction and try when budget or driver refuse |
| Vbars.Device.VbarsFree | src/model-vbar.c:113-150 | frees exactly the smaller of pages needed and pages evictable; pages are missing afterwards only when every VBAR is at its limit; a VBAR is touched only after every lower one is at its limit, and the walk stops at the page it needed last |
| Vbars.EvictableCounted | src/model-vbar.c:129-142 | each unpinned resident page between limit and watermark of any VBAR is one of those counted |
| Vbars.Device.VbarsFreeForVbar | src/model-vbar.c:168-196 | surplus plus usage plus spent pages is conserved; if some VBAR stays above its limit, nothing is owed and every absent page below target and watermark is paid for; if the surplus pays for all of them at once, nothing is evicted; if anything was evicted, less than a page is left over |
| Vbars.Device.SpendSurplusOnCursor | src/model-vbar.c:159-166 | one page size per absent page in order, as far as surplus, target and watermark go, and no further |
| Vbars.Device.MoveCursorToAbsent | src/model-vbar.c:152-157 | the first absent page from the cursor on |
| Vbars.Device.Mod1 | src/model-vbar.c:94-111 | evicts a page only if resident and not pinned, or unpinned by force, with count and usage |
| Vbars.Device.Reap | src/model-vbar.c:129-142 | one VBAR lowered towards its limit, top page first, until enough pages are free |
| Vbars.Device.Unpin | src/model-vbar.c:430-455 | of each page of the range one pin less, if it has any; one left without a pin at or above the watermark is not resident, any other keeps residency and serial; pages outside the range are unchanged |
| Vbars.Device.SetWatermark | src/model-vbar.c:267-288 | the new watermark, with every unpinned page above it evicted |
| Vbars.Device.SetWatermarkLimit | src/model-vbar.c:257-264 | the new limit, in pages |
| Vbars.Device.ResetWatermarkLimits | src/model-vbar.c:291-299 | every limit is gone, and nothing else changed |
| Vbars.Device.FreeMemory | src/model-vbar.c:514-539 | frees exactly the smaller of asked and evictable from this VBAR alone |
| Vbars.Device.Allocate | src/model-vbar.c:218-254 | a new VBAR on top of the list, no larger than the device |
| Vbars.Device.Prioritize | src/model-vbar.c:302-317 | to the top of the list with the whole range allowed |
| Vbars.Device.Deprioritize | src/model-vbar.c:320-332 | to the bottom of the list |
| Vbars.Device.Free | src/model-vbar.c:458-475 | every page goes, pinned or not, the usage falls by its resident pages, and the VBAR leaves the list |
| FileReader.Reader.Read | src/hostbuf-file-reader.c:53-103 | whenever the copies happen, the device range ends as the file range and nothing else on the device is disturbed; it fails only on a null device pointer or when driver or host memory refuse |
| FileReader.Reader.ReadAndWait | src/hostbuf-file-reader.c:53-103 | after the stream is synchronised the device holds the file's bytes |
| FileReader.Reader.ReadChunk | src/hostbuf-file-reader.c:65-100 | each round gets further and stays within the window |
| FileReader.Reader.RetireActive | src/hostbuf-file-reader.c:7-25 | afterwards an event vouches for every copy in flight from the window |
| FileReader.Reader.NextWindow | src/hostbuf-file-reader.c:27-50 | the next window in turn, empty, and no copy in flight reads it |
| FileReader.Reader.ChooseWindow | src/hostbuf-file-reader.c:70-77 | the active window goes on exactly if it is this stream's and has room for all of the read or more than 16 MiB; otherwise a fresh one |
| FileReader.Reader.Execute | src/hostbuf-file-reader.c:86-88 | a copy reads the byte that stood there when it was issued: no window byte is overwritten under it |
| FileReader.ExecuteKeeps | src/hostbuf-file-reader.c:86-88 | a copy that happens leaves what arrives at every device byte as it was to be |
| FileReader.IssuedArrives | src/hostbuf-file-reader.c:86-88 | a copy just issued decides the bytes it goes to |
| FileReader.DeliversMore | src/hostbuf-file-reader.c:96-99 | a further chunk on its way does not disturb those before it |
| XferFile.ReturnedIsSequential | src/xfer-file.c:77-124 | in every interleaving a returned call says true exactly when every chunk was read well, its destination then holds the file range, and each byte lies in one chunk that was read once |
| XferFile.ReturnedIsLeftAlone | src/xfer-file.c:59-75 | no worker holds or can get a task of a returned call |
| XferFile.ReturnedIsFrozen | src/xfer-file.c:107-123 | nothing touches a call's wait record or destination after its return |
| XferFile.NoDeadlock | src/xfer-file.c:42-124 | as long as some call has not returned, some step is possible |
| XferFile.RunInv | src/xfer-file.c:42-124 | pending counts, queue and workers agree in every interleaving |
| XferFile.ChunksTile | src/xfer-file.c:89-97 | the chunks tile the range |
| XferFile.WithBytesOk | src/xfer-file.c:64-67 | reading one chunk leaves the bytes of all others |
| XferFile.Ring.Push | src/xfer-file.c:99-108 | the ring is a queue: what is pushed goes to its end |
| XferFile.Ring.Pop | src/xfer-file.c:42-57 | the oldest task is taken |
| Prewarm.JoinedComplete | src/hostbuf-prewarm.c:75-86 | when a join returns, every page of the generation was touched exactly once and no worker is at work; before that none twice |
| Prewarm.JoinedRange | src/hostbuf-prewarm.c:88-114 | in every run, once nothing remains of a launch of `size` bytes, the page of every byte below `size` was touched exactly once |
| Prewarm.PagesCover | src/hostbuf-prewarm.c:106 | the pages launched cover the range asked for, and the last of them holds some of its bytes |
| Prewarm.FieldsStable | src/hostbuf-prewarm.c:39-49 | the pool's fields do not change while a worker reads them without the mutex |
| Prewarm.EveryGeneration | src/hostbuf-prewarm.c:36-43 | no worker skips or repeats a generation |
| Prewarm.TouchesOwnPage | src/hostbuf-prewarm.c:45-49 | each touch is of an untouched page of the worker's own share in the current range |
| Prewarm.SharesTile | src/hostbuf-prewarm.c:45-46 | the shares of the workers tile the pages |
| Prewarm.SharesEven | src/hostbuf-prewarm.c:107 | no worker has more pages than an even share, rounded up |
| Prewarm.TouchInside | src/hostbuf-prewarm.c:47-49 | a touch stays inside the range that was asked for |
| Prewarm.WorkGoesOn | src/hostbuf-prewarm.c:28-57 | as long as a caller waits, some worker can go on |
| Prewarm.LaunchInv | src/hostbuf-prewarm.c:98-114 | a new generation may start only when nothing remains of the last; every worker then has its own share before it and nothing touched |
| Prewarm.PrewarmPool.Start | src/hostbuf-prewarm.c:88-115 | in a state of the machine that allows it, it is the machine's launch and keeps the invariant |
| Prewarm.PrewarmPool.TouchShare | src/hostbuf-prewarm.c:45-49 | a worker's loop clears the first byte of each page of its share and nothing else |
| Decommit.RunInv | src/hostbuf-decommit.c:22-107 | in every interleaving the bytes under way stay within the limit and each buffer's count is that of its unfinished jobs |
| Decommit.ReleaseAfterDecommits | src/hostbuf-decommit.c:38-42 | address space is given up only when every job queued before it is done |
| Decommit.DoneInOrder | src/hostbuf-decommit.c:26-36 | jobs are done in the order they were queued |
| Decommit.ZeroIsComplete | src/hostbuf-decommit.h:16-22 | a buffer whose count is zero has all its jobs done |
| Decommit.SpaceComes | src/hostbuf-decommit.c:92-95 | no deadlock: the producer or the worker can go on |
| Decommit.DecommitQueue.EnqueueAsync | src/hostbuf-decommit.c:77-107 | the job is queued behind all others once there is space; nothing changes on failure |
| Decommit.DecommitQueue.Wait | src/hostbuf-decommit.h:16-22 | returns with all jobs of the buffer done |
| Decommit.DecommitQueue.WorkerTurn | src/hostbuf-decommit.c:22-58 | one turn of the worker |
| HostBuffers.HostBuffer.Grow | src/hostbuf.c:18-99 | size <= committed <= reserved with the committed prefix exact; zeros go only above what is in use, before and after; the "not worth it" branch commits nothing; the newly committed part is warmed up, as far as it is handed out before the return and the rest after it; what is registered is the new part, when asked for; it fails only for want of reserved space or when the driver refuses |
| HostBuffers.HostBuffer.GrowTo | src/hostbuf.c:49-98 | commit, warm-up and the way back on failure |
| HostBuffers.HostBuffer.Extend | src/hostbuf.c:194-228 | where the new chunk lies and what the size change is, on success and failure; the size wraps around exactly when the chunk to replace is larger than the buffer and its unregistering, if asked for, is accepted |
| HostBuffers.ReallocationWraps | src/hostbuf.c:207-214 | extend, truncate below the last chunk, reallocate: the size becomes a number near 2^64 |
| HostBuffers.HostBuffer.Truncate | src/hostbuf.c:101-144 | when it succeeds; what is queued are the chunks of the freed tail, then the release of an emptied range; a failure leaves the buffer intact if one chunk was all, and otherwise short of whole chunks it still claims |
| HostBuffers.HostBuffer.DecommitTail | src/hostbuf.c:115-128 | the loop queues the chunks one after the other |
| HostBuffers.HostBuffer.Free | src/hostbuf.c:166-178 | all jobs are done; the range is given up exactly when there was none, or the buffer was not empty, a registered range starts at it, and neither driver nor queue refused |
| HostBuffers.UnregisteredIsLeaked | src/hostbuf.c:175 | a buffer grown without registering is freed: its range is not given up |
| HostBuffers.FailedGrowthIsLeaked | src/hostbuf.c:101-113 | a first growth that asks for too much, then free: the reserved range is not given up |
| HostBuffers.HostBuffer.Register | src/hostbuf.c:291-301 | ranges inside the buffer only, and the driver is asked only for those that are not empty |
| HostBuffers.HostBuffer.Unregister | src/hostbuf.c:304-312 | succeeds exactly for the start of a registered range inside the buffer, unless the driver fails |
| HostBuffers.HostBuffer.constructor | src/hostbuf.c:147-163 | the reserved size, rounded up |
| HostBuffers.ChunksTile | src/hostbuf.c:115-128 | truncation's chunks tile the decommitted range exactly, none bigger than the queue takes |
| HostBuffers.AlignUpFacts | src/plat.h:104 | rounding up gives the least multiple not below |

## Left out

- CUDA and HIP hooks, symbol resolution, WDDM, NVML, Python bindings, logging, packaging: foreign calls and thin wrappers.
- Budget polling and timestamps: the budget deficit is an arbitrary integer, once for a whole fault and once for each of its pages.
- `malloc_graph_pause`, `malloc_graph_set_stream`, `malloc_graph_abort`, stream mismatches and host allocation failures inside the graph: an allocator that is not asked does nothing; a failed allocation fails the graph.
- Splicing an escaped allocation out of the tree and scrubbing snapshots (`sever_event`, `scrub_rogue_snapshots`): the tree theorems are for runs in which no scope is closed while it holds a block, because a spliced-out allocation can leave a free event without its allocation.
- MallocGraphs.MallocGraph.Allocate: sizes are positive; the theorems are about blocks that have bytes. The candidates in the way of a search are an input; remapping of black holes during the search is `RoguePages.GraphPages.Revive`, apart from it.
- MallocGraphs.MallocGraph.Pop: a scope that still holds blocks is not closed in this model; what becomes of their pages is `RoguePages.GraphPages.Escape`.
- RoguePages.GraphPages.Escape: large allocations only; small ones share their page with the heap and are not replaced. References of an already freed pointer that cannot be given back end the handoff with an error.
- RoguePages.GraphPages.MapPage: which virtual page is mapped next and onto which physical page is the search of `GraphSearch`; here both are inputs.
- RoguePages.GraphPages.LiveOn: the graph maps a further page only while nobody else has mapped anything behind its last one in the reserved range; the reservation itself is not modelled.
- RoguePages.GraphPages.FinalizeRogues: the frees of other threads do not interleave with the walk; `VmmPages.HolderKeepsMapping` covers interleaved calls on pages.
- VmmRef.Vmm.MapReference: addresses are single keys; overlap of ranges of different sizes is not modelled. `virtual_range_ref` and its counterpart are plain counters and left out.
- VmmRef.Vmm.PageAlloc: eviction of weights that changes the usage counter from outside is not modelled; the part of usage that belongs to others is fixed.
- RogueProtocol.SingleEntry: a pointer is not registered as a candidate while an entry has it, because the graph does not hand out addresses of escaped allocations.
- RogueProtocol.DroppedExactlyOnce: counts attempts; the driver's answer to an attempt is the subject of `VmmRef`.
- Vbars.Device.Move: the doubly linked list is a sequence field of the device, lowest priority first, and a residency map a sequence field of the VBAR.
- Vbars.Device.Load: the driver calls inside one load are one answer, success, out of memory or error. The read-only queries are left out as easy.
- VBAR calls are sequential: races of their usage updates with locked ones are left out.
- VbarPages.SignatureProof: serials are unbounded, signatures 32 bits wide, so fewer than 2^32 loads between the faults are assumed.
- FileReader.Reader.Read: stops at the first failure of driver or host memory; copies of other streams to the same device range at the same time are excluded.
- XferFile.ReturnedIsSequential: start-up and shutdown of the pool are left out; a mutex is free once its holder's section ends.
- Prewarm.JoinedComplete: the generation counter is unbounded.
- HostBuffers.HostBuffer.Grow: sizes are unbounded, so the sums in it do not wrap around.
- HostBuffers.HostBuffer.Extend: after the size has wrapped around nothing more is said; sizes asked for are below 2^64.
- HostBuffers.HostBuffer.UnregisterAt: of a registered range the model keeps where it starts, not how long it is.
- `hostbuf_read_file_slice`: a simple loop around calls modelled elsewhere.
- `src/vrambuf.c` and the size tables of `src/pyt-cu-plug-alloc.c`: only easy accounting.
