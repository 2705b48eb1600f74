/**
 Escaped pointers among threads: `src/malloc-rogue.c`.  A pointer is announced as a
 candidate, then handed over with references to its pages and its range; any thread may
 free it before, during or after.  One step is one critical section, or one reference
 given back between two of them.
 */
module RogueProtocol {

  datatype Candidate = Candidate(ptr: nat, freed: bool)

  /** `id` stands for the object: it is the number of the handoff that made it. */
  datatype Rogue = Rogue(id: nat, ptr: nat, freeing: bool)

  datatype Handoff = Failed | Freed | Owned

  /** What `free_rogue` finds under the lock: nothing, a candidate, a free going on, or work. */
  datatype Found = Unknown | Early | Busy | Mine(id: nat)

  // ---------------------------------------------------------------- the lists

  function CandidateAt(s: seq<Candidate>, ptr: nat): (k: nat)
    ensures k <= |s| && (k < |s| ==> s[k].ptr == ptr)
    ensures forall j | 0 <= j < k :: s[j].ptr != ptr
  {
    if s == [] || s[0].ptr == ptr then 0 else 1 + CandidateAt(s[1..], ptr)
  }

  function RogueAt(s: seq<Rogue>, ptr: nat): (k: nat)
    ensures k <= |s| && (k < |s| ==> s[k].ptr == ptr)
    ensures forall j | 0 <= j < k :: s[j].ptr != ptr
  {
    if s == [] || s[0].ptr == ptr then 0 else 1 + RogueAt(s[1..], ptr)
  }

  /** `k` is the first candidate of `ptr`. */
  predicate FirstCandidate(s: seq<Candidate>, ptr: nat, k: nat) {
    k < |s| && s[k].ptr == ptr && forall j | 0 <= j < k :: s[j].ptr != ptr
  }

  predicate FirstRogue(s: seq<Rogue>, ptr: nat, k: nat) {
    k < |s| && s[k].ptr == ptr && forall j | 0 <= j < k :: s[j].ptr != ptr
  }

  function Unregistered(s: seq<Candidate>, ptr: nat): seq<Candidate> {
    var k := CandidateAt(s, ptr);
    if k < |s| then s[..k] + s[k + 1..] else s
  }

  /** The decision of a handoff, and what becomes of the lists. */
  function HandoffResult(s: seq<Candidate>, ptr: nat): Handoff {
    var k := CandidateAt(s, ptr);
    if k == |s| then Failed else if s[k].freed then Freed else Owned
  }

  /** What a free finds, and so does: nothing known, too early, at work already, or taken by this one. */
  function FreeResult(candidates: seq<Candidate>, rogues: seq<Rogue>, ptr: nat): Found {
    var k := RogueAt(rogues, ptr);
    if k < |rogues| then if rogues[k].freeing then Busy else Mine(rogues[k].id)
    else if CandidateAt(candidates, ptr) < |candidates| then Early else Unknown
  }

  function MarkedFreed(s: seq<Candidate>, ptr: nat): seq<Candidate> {
    var k := CandidateAt(s, ptr);
    if k < |s| then s[k := s[k].(freed := true)] else s
  }

  function MarkedFreeing(s: seq<Rogue>, ptr: nat): seq<Rogue> {
    var k := RogueAt(s, ptr);
    if k < |s| then s[k := s[k].(freeing := true)] else s
  }

  function Removed(s: seq<Rogue>, id: nat): seq<Rogue> {
    if s == [] then [] else if s[0].id == id then s[1..] else [s[0]] + Removed(s[1..], id)
  }

  /** A handoff fails without a candidate; with one, the first is taken, and its mark decides. */
  lemma {:induction false} DecisionIs(s: seq<Candidate>, ptr: nat)
    ensures HandoffResult(s, ptr) == Failed <==> forall c | c in s :: c.ptr != ptr
    ensures HandoffResult(s, ptr) == Freed <==> exists k: nat :: FirstCandidate(s, ptr, k) && s[k].freed
    ensures HandoffResult(s, ptr) == Owned <==> exists k: nat :: FirstCandidate(s, ptr, k) && !s[k].freed
    ensures forall k: nat | FirstCandidate(s, ptr, k) :: Unregistered(s, ptr) == s[..k] + s[k + 1..]
    ensures (forall c | c in s :: c.ptr != ptr) ==> Unregistered(s, ptr) == s
  {
    var k := CandidateAt(s, ptr);
    assert k < |s| ==> FirstCandidate(s, ptr, k) && s[k] in s;
    forall i: nat | FirstCandidate(s, ptr, i)
      ensures i == k
    {
    }
  }

  /** A free looks for an entry first, and then for a candidate; the first of either decides. */
  lemma {:induction false} FreeIs(candidates: seq<Candidate>, rogues: seq<Rogue>, ptr: nat)
    ensures var r := FreeResult(candidates, rogues, ptr);
            && (r == Unknown <==>
                  (forall e | e in rogues :: e.ptr != ptr) && forall c | c in candidates :: c.ptr != ptr)
            && (r == Early <==>
                  (forall e | e in rogues :: e.ptr != ptr) && exists c :: c in candidates && c.ptr == ptr)
            && (r == Busy <==> exists k: nat :: FirstRogue(rogues, ptr, k) && rogues[k].freeing)
            && (r.Mine? <==> exists k: nat :: FirstRogue(rogues, ptr, k) && !rogues[k].freeing)
            && forall k: nat | r.Mine? && FirstRogue(rogues, ptr, k) :: r.id == rogues[k].id
  {
    var k, c := RogueAt(rogues, ptr), CandidateAt(candidates, ptr);
    assert k < |rogues| ==> FirstRogue(rogues, ptr, k) && rogues[k] in rogues;
    assert c < |candidates| ==> candidates[c] in candidates;
    forall i: nat | FirstRogue(rogues, ptr, i)
      ensures i == k
    {
    }
  }

  /** Marking touches the first of the pointer, and nothing else. */
  lemma {:induction false} MarkedIs(candidates: seq<Candidate>, rogues: seq<Rogue>, ptr: nat)
    ensures var s' := MarkedFreed(candidates, ptr);
            |s'| == |candidates| && forall j: nat | j < |s'| ::
                    s'[j] == if FirstCandidate(candidates, ptr, j) then Candidate(ptr, true) else candidates[j]
    ensures var s' := MarkedFreeing(rogues, ptr);
            |s'| == |rogues| && forall j: nat | j < |s'| ::
                    s'[j] == if FirstRogue(rogues, ptr, j) then Rogue(rogues[j].id, ptr, true) else rogues[j]
  {
    var k, c := RogueAt(rogues, ptr), CandidateAt(candidates, ptr);
    assert k < |rogues| ==> FirstRogue(rogues, ptr, k);
    assert c < |candidates| ==> FirstCandidate(candidates, ptr, c);
  }

  lemma {:induction false} CandidateAtIs(s: seq<Candidate>, ptr: nat, k: nat)
    requires k <= |s| && (k < |s| ==> s[k].ptr == ptr) && forall j | 0 <= j < k :: s[j].ptr != ptr
    ensures CandidateAt(s, ptr) == k
  {
  }

  lemma {:induction false} RogueAtIs(s: seq<Rogue>, ptr: nat, k: nat)
    requires k <= |s| && (k < |s| ==> s[k].ptr == ptr) && forall j | 0 <= j < k :: s[j].ptr != ptr
    ensures RogueAt(s, ptr) == k
  {
  }

  lemma {:induction false} RemovedAt(s: seq<Rogue>, k: nat)
    requires k < |s| && forall j | 0 <= j < k :: s[j].id != s[k].id
    ensures Removed(s, s[k].id) == s[..k] + s[k + 1..]
  {
    if k > 0 {
      RemovedAt(s[1..], k - 1);
      assert s[1..][..k - 1] == s[1..k] && s[1..][k..] == s[k + 1..];
    }
  }

  predicate DistinctIds(s: seq<Rogue>) {
    forall j, k | 0 <= j < k < |s| :: s[j].id != s[k].id
  }

  lemma {:induction false} RemovedFacts(s: seq<Rogue>, id: nat)
    requires DistinctIds(s)
    ensures DistinctIds(Removed(s, id)) && forall r :: r in Removed(s, id) <==> r in s && r.id != id
  {
    if s != [] && s[0].id != id {
      RemovedFacts(s[1..], id);
      assert s == [s[0]] + s[1..];
      assert Removed(s, id) == [s[0]] + Removed(s[1..], id);
    } else if s != [] {
      assert s == [s[0]] + s[1..];
    }
  }

  /** The shared lists, with the critical sections that read or change them. */
  class RogueLists {
    var candidates: seq<Candidate>
    var rogues: seq<Rogue>

    constructor ()
      ensures candidates == [] && rogues == []
    {
      candidates, rogues := [], [];
    }

    method FindCandidate(ptr: nat) returns (k: nat)
      ensures k == CandidateAt(candidates, ptr)
    {
      k := 0;
      while k < |candidates| && candidates[k].ptr != ptr
        invariant k <= |candidates| && forall j | 0 <= j < k :: candidates[j].ptr != ptr
      {
        k := k + 1;
      }
      CandidateAtIs(candidates, ptr, k);
    }

    method FindRogue(ptr: nat) returns (k: nat)
      ensures k == RogueAt(rogues, ptr)
    {
      k := 0;
      while k < |rogues| && rogues[k].ptr != ptr
        invariant k <= |rogues| && forall j | 0 <= j < k :: rogues[j].ptr != ptr
      {
        k := k + 1;
      }
      RogueAtIs(rogues, ptr, k);
    }

    /** `register_rogue_candidate`. */
    method Register(ptr: nat)
      modifies this`candidates
      ensures candidates == [Candidate(ptr, false)] + old(candidates)
    {
      candidates := [Candidate(ptr, false)] + candidates;
    }

    /** `unregister_rogue_candidate`. */
    method Unregister(ptr: nat)
      modifies this`candidates
      ensures candidates == Unregistered(old(candidates), ptr)
      ensures forall k: nat | FirstCandidate(old(candidates), ptr, k) ::
                candidates == old(candidates)[..k] + old(candidates)[k + 1..]
    {
      DecisionIs(candidates, ptr);
      var k := FindCandidate(ptr);
      if k < |candidates| {
        candidates := candidates[..k] + candidates[k + 1..];
      }
    }

    /** The critical section of `handoff_rogue`. */
    method Decide(ptr: nat, id: nat) returns (result: Handoff)
      modifies this
      ensures result == HandoffResult(old(candidates), ptr)
      ensures result == Failed <==> forall c | c in old(candidates) :: c.ptr != ptr
      ensures result == Freed <==> exists k: nat :: FirstCandidate(old(candidates), ptr, k) && old(candidates)[k].freed
      ensures result == Owned <==> exists k: nat :: FirstCandidate(old(candidates), ptr, k) && !old(candidates)[k].freed
      ensures forall k: nat | FirstCandidate(old(candidates), ptr, k) ::
                candidates == old(candidates)[..k] + old(candidates)[k + 1..]
      ensures candidates == Unregistered(old(candidates), ptr)
      ensures rogues == if result == Owned then [Rogue(id, ptr, false)] + old(rogues) else old(rogues)
    {
      DecisionIs(candidates, ptr);
      var k := FindCandidate(ptr);
      if k < |candidates| {
        var candidate := candidates[k];
        candidates := candidates[..k] + candidates[k + 1..];
        result := if candidate.freed then Freed else Owned;
      } else {
        result := Failed;
      }
      if result == Owned {
        rogues := [Rogue(id, ptr, false)] + rogues;
      }
    }

    /** `rogue_exists`. */
    method Exists(ptr: nat) returns (found: bool)
      ensures found <==> exists r :: r in rogues && r.ptr == ptr
    {
      var k := FindRogue(ptr);
      found := k < |rogues|;
      if found {
        assert rogues[k] in rogues;
      }
    }

    /** `rogue_candidate_freed`. */
    method CandidateFreed(ptr: nat) returns (freed: bool)
      ensures freed <==> exists k: nat :: FirstCandidate(candidates, ptr, k) && candidates[k].freed
    {
      var k := FindCandidate(ptr);
      freed := k < |candidates| && candidates[k].freed;
      assert k < |candidates| ==> FirstCandidate(candidates, ptr, k);
    }

    /** The first critical section of `free_rogue`. */
    method BeginFree(ptr: nat) returns (found: Found)
      modifies this
      ensures found == FreeResult(old(candidates), old(rogues), ptr)
      ensures found == Early ==> |candidates| == old(|candidates|) && rogues == old(rogues)
      ensures found == Early ==> forall j: nat | j < |candidates| ::
                candidates[j] == if FirstCandidate(old(candidates), ptr, j) then Candidate(ptr, true)
                                 else old(candidates)[j]
      ensures found.Mine? ==> |rogues| == old(|rogues|) && candidates == old(candidates)
      ensures found.Mine? ==> forall j: nat | j < |rogues| ::
                rogues[j] == if FirstRogue(old(rogues), ptr, j) then Rogue(found.id, ptr, true) else old(rogues)[j]
      ensures found == Busy || found == Unknown ==> candidates == old(candidates) && rogues == old(rogues)
      ensures found == Unknown <==>
                (forall e | e in old(rogues) :: e.ptr != ptr) && forall c | c in old(candidates) :: c.ptr != ptr
      ensures found == Early <==>
                (forall e | e in old(rogues) :: e.ptr != ptr) && exists c :: c in old(candidates) && c.ptr == ptr
      ensures found == Busy <==> exists k: nat :: FirstRogue(old(rogues), ptr, k) && old(rogues)[k].freeing
      ensures found.Mine? <==> exists k: nat :: FirstRogue(old(rogues), ptr, k) && !old(rogues)[k].freeing
      ensures forall k: nat | found.Mine? && FirstRogue(old(rogues), ptr, k) :: found.id == old(rogues)[k].id
      ensures candidates == if found == Early then MarkedFreed(old(candidates), ptr) else old(candidates)
      ensures rogues == if found.Mine? then MarkedFreeing(old(rogues), ptr) else old(rogues)
    {
      FreeIs(candidates, rogues, ptr);
      MarkedIs(candidates, rogues, ptr);
      var k := FindRogue(ptr);
      if k == |rogues| {
        var c := FindCandidate(ptr);
        if c == |candidates| {
          return Unknown;
        }
        candidates := candidates[c := candidates[c].(freed := true)];
        return Early;
      }
      if rogues[k].freeing {
        return Busy;
      }
      rogues := rogues[k := rogues[k].(freeing := true)];
      found := Mine(rogues[k].id);
    }

    /** The second critical section of `free_rogue`: the entry leaves the list. */
    method EndFree(id: nat)
      requires exists r :: r in rogues && r.id == id
      modifies this`rogues
      ensures rogues == Removed(old(rogues), id)
      ensures exists k: nat :: k < |old(rogues)| && old(rogues)[k].id == id &&
                               rogues == old(rogues)[..k] + old(rogues)[k + 1..]
    {
      var k := 0;
      while rogues[k].id != id
        invariant k < |rogues| && (forall j | 0 <= j < k :: rogues[j].id != id)
        invariant exists r :: r in rogues[k..] && r.id == id
        decreases |rogues| - k
      {
        k := k + 1;
      }
      RemovedAt(rogues, k);
      rogues := rogues[..k] + rogues[k + 1..];
    }
  }

  // ---------------------------------------------------------------- threads

  /** Where a thread is: taking a handoff to its decision, or giving references back. */
  datatype Thread = Idle | Deciding(id: nat) | Refusing(id: nat, given: nat) | Freeing(id: nat, given: nat)

  /** What became of a handed-over allocation so far; the thread at work on it, if any. */
  datatype Phase = Open(t: nat) | Held | Returning(t: nat, given: nat) | Dropping(t: nat, given: nat) | Gone | Refused

  /** One handoff: its references (the pages and then the range), and how often each was given back. */
  datatype Escape = Escape(ptr: nat, drops: seq<nat>, phase: Phase)

  datatype System = System(candidates: seq<Candidate>, rogues: seq<Rogue>, escapes: seq<Escape>, threads: seq<Thread>)

  datatype Step =
    | Register(ptr: nat) | Unregister(ptr: nat)
    | Take(t: nat, ptr: nat, pages: nat)     // references taken, before the decision
    | Decide(t: nat)
    | Free(t: nat, ptr: nat)
    | GiveBack(t: nat)                       // one reference, after refusal or in a free
    | Finish(t: nat)

  /**
   A pointer is announced once at a time, and not while it has an entry: its addresses are
   not given out again before that is gone.  Threads start something only when idle.
   */
  predicate Enabled(s: System, step: Step) {
    match step
    case Register(ptr) => (forall c | c in s.candidates :: c.ptr != ptr) && forall r | r in s.rogues :: r.ptr != ptr
    case Unregister(_) => true
    case Take(t, _, _) => t < |s.threads| && s.threads[t] == Idle
    case Decide(t) => t < |s.threads| && s.threads[t].Deciding?
    case Free(t, _) => t < |s.threads| && s.threads[t] == Idle
    case GiveBack(t) =>
      && t < |s.threads| && (s.threads[t].Refusing? || s.threads[t].Freeing?)
      && s.threads[t].id < |s.escapes| && s.threads[t].given < |s.escapes[s.threads[t].id].drops|
    case Finish(t) =>
      && t < |s.threads| && (s.threads[t].Refusing? || s.threads[t].Freeing?)
      && s.threads[t].id < |s.escapes| && s.threads[t].given == |s.escapes[s.threads[t].id].drops|
  }

  function Zeros(n: nat): seq<nat> {
    seq(n, _ => 0)
  }

  function AfterDecision(s: System, t: nat, id: nat): System
    requires id < |s.escapes| && t < |s.threads|
  {
    var e := s.escapes[id];
    var owned := HandoffResult(s.candidates, e.ptr) == Owned;
    System(Unregistered(s.candidates, e.ptr),
           if owned then [Rogue(id, e.ptr, false)] + s.rogues else s.rogues,
           s.escapes[id := e.(phase := if owned then Held else Returning(t, 0))],
           s.threads[t := if owned then Idle else Refusing(id, 0)])
  }

  function AfterFree(s: System, t: nat, ptr: nat): System
    requires t < |s.threads|
  {
    match FreeResult(s.candidates, s.rogues, ptr)
    case Unknown => s
    case Busy => s
    case Early => s.(candidates := MarkedFreed(s.candidates, ptr))
    case Mine(id) =>
      s.(rogues := MarkedFreeing(s.rogues, ptr),
         escapes := if id < |s.escapes| then s.escapes[id := s.escapes[id].(phase := Dropping(t, 0))] else s.escapes,
         threads := s.threads[t := Freeing(id, 0)])
  }

  function AfterGiveBack(s: System, t: nat): System
    requires Enabled(s, GiveBack(t))
  {
    var thread := s.threads[t];
    var e := s.escapes[thread.id];
    var drops := e.drops[thread.given := e.drops[thread.given] + 1];
    s.(escapes := s.escapes[thread.id := Escape(e.ptr, drops,
         if thread.Freeing? then Dropping(t, thread.given + 1) else Returning(t, thread.given + 1))],
       threads := s.threads[t := thread.(given := thread.given + 1)])
  }

  function AfterFinish(s: System, t: nat): System
    requires Enabled(s, Finish(t))
  {
    var thread := s.threads[t];
    s.(rogues := if thread.Freeing? then Removed(s.rogues, thread.id) else s.rogues,
       escapes := s.escapes[thread.id := s.escapes[thread.id].(phase := if thread.Freeing? then Gone else Refused)],
       threads := s.threads[t := Idle])
  }

  function After(s: System, step: Step): System
    requires Enabled(s, step)
  {
    match step
    case Register(ptr) => s.(candidates := [Candidate(ptr, false)] + s.candidates)
    case Unregister(ptr) => s.(candidates := Unregistered(s.candidates, ptr))
    case Take(t, ptr, pages) =>
      s.(escapes := s.escapes + [Escape(ptr, Zeros(pages + 1), Open(t))],
         threads := s.threads[t := Deciding(|s.escapes|)])
    case Decide(t) => if s.threads[t].id < |s.escapes| then AfterDecision(s, t, s.threads[t].id) else s
    case Free(t, ptr) => AfterFree(s, t, ptr)
    case GiveBack(t) => AfterGiveBack(s, t)
    case Finish(t) => AfterFinish(s, t)
  }

  // ---------------------------------------------------------------- the invariant

  /** References are given back in order, each once, while a thread is at it; all of them in the end. */
  predicate DropsOk(e: Escape) {
    match e.phase
    case Open(_) => forall j | 0 <= j < |e.drops| :: e.drops[j] == 0
    case Held => forall j | 0 <= j < |e.drops| :: e.drops[j] == 0
    case Returning(_, given) => given <= |e.drops| && forall j | 0 <= j < |e.drops| ::
          e.drops[j] == if j < given then 1 else 0
    case Dropping(_, given) => given <= |e.drops| && forall j | 0 <= j < |e.drops| ::
          e.drops[j] == if j < given then 1 else 0
    case Gone => forall j | 0 <= j < |e.drops| :: e.drops[j] == 1
    case Refused => forall j | 0 <= j < |e.drops| :: e.drops[j] == 1
  }

  /** The thread a phase names is at that work. */
  predicate WorkerOk(e: Escape, id: nat, threads: seq<Thread>) {
    match e.phase
    case Open(t) => t < |threads| && threads[t] == Deciding(id)
    case Returning(t, given) => t < |threads| && threads[t] == Refusing(id, given)
    case Dropping(t, given) => t < |threads| && threads[t] == Freeing(id, given)
    case _ => true
  }

  predicate ThreadOk(thread: Thread, t: nat, escapes: seq<Escape>) {
    match thread
    case Idle => true
    case Deciding(id) => id < |escapes| && escapes[id].phase == Open(t)
    case Refusing(id, given) => id < |escapes| && escapes[id].phase == Returning(t, given)
    case Freeing(id, given) => id < |escapes| && escapes[id].phase == Dropping(t, given)
  }

  /** The entry of an escape, as long as it has one. */
  ghost predicate EntryOk(e: Escape, id: nat, rogues: seq<Rogue>) {
    match e.phase
    case Held => Rogue(id, e.ptr, false) in rogues
    case Dropping(_, _) => Rogue(id, e.ptr, true) in rogues
    case _ => forall r | r in rogues :: r.id != id
  }

  ghost predicate Inv(s: System) {
    && DistinctIds(s.rogues)
    && (forall r | r in s.rogues :: r.id < |s.escapes|)
    && (forall id | 0 <= id < |s.escapes| :: DropsOk(s.escapes[id]))
    && (forall id | 0 <= id < |s.escapes| :: WorkerOk(s.escapes[id], id, s.threads))
    && (forall id | 0 <= id < |s.escapes| :: EntryOk(s.escapes[id], id, s.rogues))
    && forall t | 0 <= t < |s.threads| :: ThreadOk(s.threads[t], t, s.escapes)
  }

  lemma {:induction false} DecidedInv(s: System, t: nat)
    requires Inv(s) && Enabled(s, Decide(t))
    ensures Inv(After(s, Decide(t)))
  {
    var id := s.threads[t].id;
    assert ThreadOk(s.threads[t], t, s.escapes);
    var s' := After(s, Decide(t));
    assert EntryOk(s.escapes[id], id, s.rogues);
    forall k | 0 <= k < |s.escapes|
      ensures EntryOk(s'.escapes[k], k, s'.rogues) && DropsOk(s'.escapes[k]) && WorkerOk(s'.escapes[k], k, s'.threads)
    {
      assert EntryOk(s.escapes[k], k, s.rogues) && DropsOk(s.escapes[k]) && WorkerOk(s.escapes[k], k, s.threads);
    }
    forall u | 0 <= u < |s.threads|
      ensures ThreadOk(s'.threads[u], u, s'.escapes)
    {
      assert ThreadOk(s.threads[u], u, s.escapes);
    }
  }

  lemma {:induction false} TakeInv(s: System, t: nat, ptr: nat, pages: nat)
    requires Inv(s) && Enabled(s, Take(t, ptr, pages))
    ensures Inv(After(s, Take(t, ptr, pages)))
  {
    var s' := After(s, Take(t, ptr, pages));
    forall k | 0 <= k < |s'.escapes|
      ensures EntryOk(s'.escapes[k], k, s'.rogues) && DropsOk(s'.escapes[k]) && WorkerOk(s'.escapes[k], k, s'.threads)
    {
      if k < |s.escapes| {
        assert EntryOk(s.escapes[k], k, s.rogues) && DropsOk(s.escapes[k]) && WorkerOk(s.escapes[k], k, s.threads);
      }
    }
    forall u | 0 <= u < |s.threads|
      ensures ThreadOk(s'.threads[u], u, s'.escapes)
    {
      assert ThreadOk(s.threads[u], u, s.escapes);
    }
  }

  lemma {:induction false} FreedEntries(s: System, t: nat, ptr: nat, k: nat)
    requires Inv(s) && Enabled(s, Free(t, ptr)) && FreeResult(s.candidates, s.rogues, ptr).Mine? && k < |s.escapes|
    ensures var s' := After(s, Free(t, ptr)); EntryOk(s'.escapes[k], k, s'.rogues)
  {
    hide DropsOk, WorkerOk, ThreadOk;
    var s' := After(s, Free(t, ptr));
    var i := RogueAt(s.rogues, ptr);
    assert s.rogues[i] in s.rogues && s'.rogues[i] in s'.rogues;
    assert EntryOk(s.escapes[k], k, s.rogues);
    OthersListed(s.rogues, i, k);
  }

  lemma {:induction false} FreedInv(s: System, t: nat, ptr: nat)
    requires Inv(s) && Enabled(s, Free(t, ptr)) && FreeResult(s.candidates, s.rogues, ptr).Mine?
    ensures Inv(After(s, Free(t, ptr)))
  {
    var s' := After(s, Free(t, ptr));
    var i := RogueAt(s.rogues, ptr);
    assert s.rogues[i] in s.rogues;
    assert forall j | 0 <= j < |s.rogues| :: s'.rogues[j].id == s.rogues[j].id;
    assert EntryOk(s.escapes[s.rogues[i].id], s.rogues[i].id, s.rogues);
    OthersListed(s.rogues, i, s.rogues[i].id);
    FreedRest(s, t, ptr);
    forall k | 0 <= k < |s.escapes|
      ensures EntryOk(s'.escapes[k], k, s'.rogues)
    {
      FreedEntries(s, t, ptr, k);
    }
  }

  lemma {:induction false} FreedRest(s: System, t: nat, ptr: nat)
    requires Inv(s) && Enabled(s, Free(t, ptr)) && FreeResult(s.candidates, s.rogues, ptr).Mine?
    ensures var s' := After(s, Free(t, ptr));
            && (forall k | 0 <= k < |s.escapes| :: DropsOk(s'.escapes[k]) && WorkerOk(s'.escapes[k], k, s'.threads))
            && forall u | 0 <= u < |s.threads| :: ThreadOk(s'.threads[u], u, s'.escapes)
  {
    var s' := After(s, Free(t, ptr));
    var i := RogueAt(s.rogues, ptr);
    var id := s.rogues[i].id;
    assert s.rogues[i] in s.rogues && EntryOk(s.escapes[id], id, s.rogues);
    assert DropsOk(s.escapes[id]);
    OthersListed(s.rogues, i, id);
    forall k | 0 <= k < |s.escapes|
      ensures DropsOk(s'.escapes[k]) && WorkerOk(s'.escapes[k], k, s'.threads)
    {
      assert DropsOk(s.escapes[k]) && WorkerOk(s.escapes[k], k, s.threads);
    }
    forall u | 0 <= u < |s.threads|
      ensures ThreadOk(s'.threads[u], u, s'.escapes)
    {
      assert ThreadOk(s.threads[u], u, s.escapes);
    }
  }

  /** Marking one entry changes no other. */
  lemma {:induction false} OthersListed(s: seq<Rogue>, i: nat, k: nat)
    requires i < |s| && DistinctIds(s)
    ensures var s' := s[i := s[i].(freeing := true)];
            forall r: Rogue | r.id == k && k != s[i].id :: r in s <==> r in s'
    ensures forall r | r in s && r.id == s[i].id :: r == s[i]
  {
    var s' := s[i := s[i].(freeing := true)];
    forall r: Rogue | r.id == k && k != s[i].id
      ensures r in s <==> r in s'
    {
      if r in s {
        var j :| 0 <= j < |s| && s[j] == r;
        assert s'[j] == r;
      }
    }
  }

  lemma {:induction false} GaveBackInv(s: System, t: nat)
    requires Inv(s) && Enabled(s, GiveBack(t))
    ensures Inv(After(s, GiveBack(t)))
  {
    var s' := After(s, GiveBack(t));
    assert ThreadOk(s.threads[t], t, s.escapes);
    forall k | 0 <= k < |s.escapes|
      ensures EntryOk(s'.escapes[k], k, s'.rogues) && DropsOk(s'.escapes[k]) && WorkerOk(s'.escapes[k], k, s'.threads)
    {
      assert EntryOk(s.escapes[k], k, s.rogues) && DropsOk(s.escapes[k]) && WorkerOk(s.escapes[k], k, s.threads);
    }
    forall u | 0 <= u < |s.threads|
      ensures ThreadOk(s'.threads[u], u, s'.escapes)
    {
      assert ThreadOk(s.threads[u], u, s.escapes);
    }
  }

  lemma {:induction false} FinishedInv(s: System, t: nat)
    requires Inv(s) && Enabled(s, Finish(t))
    ensures Inv(After(s, Finish(t)))
  {
    var s' := After(s, Finish(t));
    assert ThreadOk(s.threads[t], t, s.escapes);
    RemovedFacts(s.rogues, s.threads[t].id);
    forall k | 0 <= k < |s.escapes|
      ensures EntryOk(s'.escapes[k], k, s'.rogues) && DropsOk(s'.escapes[k]) && WorkerOk(s'.escapes[k], k, s'.threads)
    {
      assert EntryOk(s.escapes[k], k, s.rogues) && DropsOk(s.escapes[k]) && WorkerOk(s.escapes[k], k, s.threads);
    }
    forall u | 0 <= u < |s.threads|
      ensures ThreadOk(s'.threads[u], u, s'.escapes)
    {
      assert ThreadOk(s.threads[u], u, s.escapes);
    }
  }

  lemma {:induction false} StepInv(s: System, step: Step)
    requires Inv(s) && Enabled(s, step)
    ensures Inv(After(s, step))
  {
    hide EntryOk, DropsOk, WorkerOk, ThreadOk;
    match step
    case Register(_) =>
    case Unregister(_) =>
    case Take(t, ptr, pages) => TakeInv(s, t, ptr, pages);
    case Decide(t) => DecidedInv(s, t);
    case Free(t, ptr) => if FreeResult(s.candidates, s.rogues, ptr).Mine? { FreedInv(s, t, ptr); }
    case GiveBack(t) => GaveBackInv(s, t);
    case Finish(t) => FinishedInv(s, t);
  }

  // ---------------------------------------------------------------- runs

  ghost predicate Initial(s: System) {
    s.candidates == [] && s.rogues == [] && s.escapes == [] && forall t | 0 <= t < |s.threads| :: s.threads[t] == Idle
  }

  ghost predicate IsRun(ss: seq<System>, steps: seq<Step>) {
    && |ss| == |steps| + 1 && Initial(ss[0])
    && forall i | 0 <= i < |steps| :: Enabled(ss[i], steps[i]) && ss[i + 1] == After(ss[i], steps[i])
  }

  lemma {:induction false} RunInv(ss: seq<System>, steps: seq<Step>, i: nat)
    requires IsRun(ss, steps) && i < |ss|
    ensures Inv(ss[i])
  {
    if i > 0 {
      RunInv(ss, steps, i - 1);
      assert Enabled(ss[i - 1], steps[i - 1]) && ss[i - 1 + 1] == After(ss[i - 1], steps[i - 1]);
      StepInv(ss[i - 1], steps[i - 1]);
    }
  }

  /** Nobody waits for ever: a thread at work can take its next step, and an idle one start anything. */
  lemma {:induction false} NeverStuck(ss: seq<System>, steps: seq<Step>, i: nat, t: nat, ptr: nat, pages: nat)
    requires IsRun(ss, steps) && i < |ss| && t < |ss[i].threads|
    ensures Enabled(ss[i], Unregister(ptr))
    ensures if ss[i].threads[t] == Idle then Enabled(ss[i], Take(t, ptr, pages)) && Enabled(ss[i], Free(t, ptr))
            else Enabled(ss[i], Decide(t)) || Enabled(ss[i], GiveBack(t)) || Enabled(ss[i], Finish(t))
  {
    RunInv(ss, steps, i);
    var s := ss[i];
    assert ThreadOk(s.threads[t], t, s.escapes);
    if s.threads[t].Refusing? || s.threads[t].Freeing? {
      assert DropsOk(s.escapes[s.threads[t].id]);
    }
  }

  /** What thread `t` does next when it is at work. */
  function NextOf(s: System, t: nat): Step
    requires t < |s.threads| && s.threads[t] != Idle
  {
    match s.threads[t]
    case Deciding(_) => Step.Decide(t)
    case Refusing(id, given) => if id < |s.escapes| && given < |s.escapes[id].drops| then GiveBack(t) else Finish(t)
    case Freeing(id, given) => if id < |s.escapes| && given < |s.escapes[id].drops| then GiveBack(t) else Finish(t)
  }

  /** How many references thread `t` has still to give back. */
  function Owed(s: System, t: nat): int
    requires t < |s.threads|
  {
    match s.threads[t]
    case Refusing(id, given) => if id < |s.escapes| then |s.escapes[id].drops| - given else 0
    case Freeing(id, given) => if id < |s.escapes| then |s.escapes[id].drops| - given else 0
    case _ => 0
  }

  /** The work on escape `id` is over: an entry stands, or every reference was given back and none is listed. */
  ghost predicate Over(s: System, id: nat) {
    && id < |s.escapes|
    && match s.escapes[id].phase
       case Held => Rogue(id, s.escapes[id].ptr, false) in s.rogues
       case Gone => (forall r | r in s.rogues :: r.id != id) && forall j | 0 <= j < |s.escapes[id].drops| ::
           s.escapes[id].drops[j] == 1
       case Refused => (forall r | r in s.rogues :: r.id != id) && forall j | 0 <= j < |s.escapes[id].drops| ::
           s.escapes[id].drops[j] == 1
       case _ => false
  }

  lemma {:induction false} NextStep(s: System, t: nat)
    requires Inv(s) && t < |s.threads| && s.threads[t] != Idle
    ensures Enabled(s, NextOf(s, t))
    ensures var s' := After(s, NextOf(s, t));
            && s'.threads == s.threads[t := s'.threads[t]] && |s'.escapes| == |s.escapes|
            && (if s'.threads[t] == Idle then Over(s', s.threads[t].id)
                else s'.threads[t].id == s.threads[t].id && !s'.threads[t].Deciding? &&
                     (s.threads[t].Deciding? || 0 <= Owed(s', t) < Owed(s, t)))
  {
    assert ThreadOk(s.threads[t], t, s.escapes);
    var id := s.threads[t].id;
    assert DropsOk(s.escapes[id]) && EntryOk(s.escapes[id], id, s.rogues);
    var s' := After(s, NextOf(s, t));
    StepInv(s, NextOf(s, t));
    assert DropsOk(s'.escapes[id]) && EntryOk(s'.escapes[id], id, s'.rogues);
  }

  /**
   Work ends.  Whatever led here, a thread at work that goes on alone comes to rest: its
   handoff stands or was refused, or its free is done, and whatever had to be given back
   has been, each reference once.
   */
  lemma {:induction false} WorkEnds(ss: seq<System>, steps: seq<Step>, t: nat)
    returns (ss': seq<System>, steps': seq<Step>)
    requires IsRun(ss, steps) && t < |ss[|steps|].threads| && ss[|steps|].threads[t] != Idle
    ensures IsRun(ss', steps') && ss <= ss' && steps <= steps'
    ensures ss'[|steps'|].threads == ss[|steps|].threads[t := Idle]
    ensures Over(ss'[|steps'|], ss[|steps|].threads[t].id)
    decreases ss[|steps|].threads[t].Deciding?, Owed(ss[|steps|], t)
  {
    hide After, Enabled, Inv, Over;
    RunInv(ss, steps, |steps|);
    var s := ss[|steps|];
    var step := NextOf(s, t);
    NextStep(s, t);
    ss', steps' := ss + [After(s, step)], steps + [step];
    assert ss'[|steps|] == s;
    if After(s, step).threads[t] != Idle {
      ss', steps' := WorkEnds(ss', steps', t);
    }
  }

  /**
   Whatever the interleaving, no reference is given back twice; none while the allocation
   is held, and every one once it is gone or was refused.
   */
  lemma {:induction false} DroppedExactlyOnce(ss: seq<System>, steps: seq<Step>, i: nat, id: nat, j: nat)
    requires IsRun(ss, steps) && i < |ss| && id < |ss[i].escapes| && j < |ss[i].escapes[id].drops|
    ensures ss[i].escapes[id].drops[j] <= 1
    ensures Rogue(id, ss[i].escapes[id].ptr, false) in ss[i].rogues ==> ss[i].escapes[id].drops[j] == 0
    ensures (forall r | r in ss[i].rogues :: r.id != id)
            && (forall t | 0 <= t < |ss[i].threads| :: ss[i].threads[t].Idle? || ss[i].threads[t].id != id)
            ==> ss[i].escapes[id].drops[j] == 1
  {
    RunInv(ss, steps, i);
    var s := ss[i];
    assert DropsOk(s.escapes[id]) && EntryOk(s.escapes[id], id, s.rogues) && WorkerOk(s.escapes[id], id, s.threads);
    assert s.escapes[id].phase.Dropping? ==> Rogue(id, s.escapes[id].ptr, true) in s.rogues;
  }

  /** A handoff holds one reference for each page and one for the range, and never another number. */
  lemma {:induction false} OneForEachPage(ss: seq<System>, steps: seq<Step>, i: nat, j: nat, t: nat, ptr: nat,
                                         pages: nat)
    requires IsRun(ss, steps) && i < j < |ss| && steps[i] == Take(t, ptr, pages)
    ensures var id := |ss[i].escapes|;
            id < |ss[j].escapes| && |ss[j].escapes[id].drops| == pages + 1 && ss[j].escapes[id].ptr == ptr
    decreases j
  {
    if i + 1 < j { OneForEachPage(ss, steps, i, j - 1, t, ptr, pages); }
    assert Enabled(ss[j - 1], steps[j - 1]) && ss[j - 1 + 1] == After(ss[j - 1], steps[j - 1]);
  }

  /** An allocation that was handed over, whatever became of it since. */
  predicate Entered(e: Escape) {
    e.phase.Held? || e.phase.Dropping? || e.phase.Gone?
  }

  lemma {:induction false} EnteredStays(s: System, step: Step, id: nat)
    requires Inv(s) && Enabled(s, step) && id < |s.escapes| && Entered(s.escapes[id])
    ensures var s' := After(s, step); id < |s'.escapes| && Entered(s'.escapes[id])
  {
    match step
    case Decide(t) => assert ThreadOk(s.threads[t], t, s.escapes);
    case GiveBack(t) => assert ThreadOk(s.threads[t], t, s.escapes);
    case Finish(t) => assert ThreadOk(s.threads[t], t, s.escapes);
    case _ =>
  }

  lemma {:induction false} EnteredThrough(ss: seq<System>, steps: seq<Step>, i: nat, j: nat, id: nat)
    requires IsRun(ss, steps) && i <= j < |ss| && id < |ss[i].escapes| && Entered(ss[i].escapes[id])
    ensures id < |ss[j].escapes| && Entered(ss[j].escapes[id])
    decreases j
  {
    hide Inv, Enabled, After, Entered;
    if i < j {
      EnteredThrough(ss, steps, i, j - 1, id);
      RunInv(ss, steps, j - 1);
      assert Enabled(ss[j - 1], steps[j - 1]) && ss[j - 1 + 1] == After(ss[j - 1], steps[j - 1]);
      EnteredStays(ss[j - 1], steps[j - 1], id);
    }
  }

  /** Once its entry was there and is gone, each reference of an allocation was given back exactly once. */
  lemma {:induction false} GoneIsDropped(ss: seq<System>, steps: seq<Step>, i: nat, j: nat, r: Rogue)
    requires IsRun(ss, steps) && i <= j < |ss| && r in ss[i].rogues && forall q | q in ss[j].rogues :: q.id != r.id
    ensures r.id < |ss[j].escapes| && forall k | 0 <= k < |ss[j].escapes[r.id].drops| ::
              ss[j].escapes[r.id].drops[k] == 1
  {
    RunInv(ss, steps, i);
    RunInv(ss, steps, j);
    assert EntryOk(ss[i].escapes[r.id], r.id, ss[i].rogues);
    EnteredThrough(ss, steps, i, j, r.id);
    var e := ss[j].escapes[r.id];
    assert EntryOk(e, r.id, ss[j].rogues) && DropsOk(e);
    NoEntryIsGone(e, r.id, ss[j].rogues);
  }

  lemma {:induction false} NoEntryIsGone(e: Escape, id: nat, rogues: seq<Rogue>)
    requires EntryOk(e, id, rogues) && Entered(e) && forall r | r in rogues :: r.id != id
    ensures e.phase == Gone
  {
  }

  // ---------------------------------------------------------------- one entry a pointer

  predicate CandidatesApart(s: seq<Candidate>) {
    forall j, k | 0 <= j < k < |s| :: s[j].ptr != s[k].ptr
  }

  predicate RoguesApart(s: seq<Rogue>) {
    forall j, k | 0 <= j < k < |s| :: s[j].ptr != s[k].ptr
  }

  /** No pointer has two candidates, two entries, or one of each. */
  ghost predicate PointersOk(candidates: seq<Candidate>, rogues: seq<Rogue>) {
    && CandidatesApart(candidates) && RoguesApart(rogues)
    && forall c, r | c in candidates && r in rogues :: c.ptr != r.ptr
  }

  lemma {:induction false} UnregisteredApart(s: seq<Candidate>, ptr: nat)
    requires CandidatesApart(s)
    ensures var s' := Unregistered(s, ptr);
            CandidatesApart(s') && forall c | c in s' :: c in s && c.ptr != ptr
  {
    var k, s' := CandidateAt(s, ptr), Unregistered(s, ptr);
    assert forall j | 0 <= j < |s'| :: s'[j] == s[if j < k then j else j + 1];
  }

  lemma {:induction false} RemovedApart(s: seq<Rogue>, id: nat)
    requires RoguesApart(s)
    ensures RoguesApart(Removed(s, id)) && forall r | r in Removed(s, id) :: r in s
  {
    if s != [] && s[0].id != id {
      RemovedApart(s[1..], id);
      var rest := Removed(s[1..], id);
      assert Removed(s, id) == [s[0]] + rest;
      assert forall r | r in rest :: r.ptr != s[0].ptr;
    }
  }

  lemma {:induction false} DecidedApart(candidates: seq<Candidate>, rogues: seq<Rogue>, ptr: nat)
    requires PointersOk(candidates, rogues)
    ensures PointersOk(Unregistered(candidates, ptr), rogues)
    ensures forall id | HandoffResult(candidates, ptr) != Failed ::
              PointersOk(Unregistered(candidates, ptr), [Rogue(id, ptr, false)] + rogues)
  {
    hide Unregistered;
    UnregisteredApart(candidates, ptr);
    var k := CandidateAt(candidates, ptr);
    if k < |candidates| { assert candidates[k] in candidates; }
  }

  lemma {:induction false} MarkedApart(candidates: seq<Candidate>, rogues: seq<Rogue>, ptr: nat)
    requires PointersOk(candidates, rogues)
    ensures PointersOk(MarkedFreed(candidates, ptr), rogues) && PointersOk(candidates, MarkedFreeing(rogues, ptr))
  {
    var cs, rs := MarkedFreed(candidates, ptr), MarkedFreeing(rogues, ptr);
    assert forall k | 0 <= k < |rogues| :: rs[k].ptr == rogues[k].ptr && rogues[k] in rogues;
    assert forall k | 0 <= k < |candidates| :: cs[k].ptr == candidates[k].ptr && candidates[k] in candidates;
  }

  lemma {:induction false} StepPointers(s: System, step: Step)
    requires PointersOk(s.candidates, s.rogues) && Enabled(s, step)
    ensures PointersOk(After(s, step).candidates, After(s, step).rogues)
  {
    hide Unregistered, MarkedFreed, MarkedFreeing;
    match step
    case Unregister(ptr) => UnregisteredApart(s.candidates, ptr);
    case Decide(t) =>
      if s.threads[t].id < |s.escapes| { DecidedApart(s.candidates, s.rogues, s.escapes[s.threads[t].id].ptr); }
    case Free(t, ptr) => MarkedApart(s.candidates, s.rogues, ptr);
    case Finish(t) => RemovedApart(s.rogues, s.threads[t].id);
    case _ =>
  }

  /** In every run a pointer has at most one entry, and none while it is announced. */
  lemma {:induction false} SingleEntry(ss: seq<System>, steps: seq<Step>, i: nat)
    requires IsRun(ss, steps) && i < |ss|
    ensures PointersOk(ss[i].candidates, ss[i].rogues)
  {
    hide After, Enabled;
    if i > 0 {
      SingleEntry(ss, steps, i - 1);
      assert Enabled(ss[i - 1], steps[i - 1]) && ss[i - 1 + 1] == After(ss[i - 1], steps[i - 1]);
      StepPointers(ss[i - 1], steps[i - 1]);
    }
  }

  /** The step decides the handoff of `ptr`, or withdraws its candidate. */
  predicate Withdraws(s: System, step: Step, ptr: nat) {
    match step
    case Unregister(p) => p == ptr
    case Decide(t) =>
      && t < |s.threads| && s.threads[t].Deciding? && s.threads[t].id < |s.escapes|
      && s.escapes[s.threads[t].id].ptr == ptr
    case _ => false
  }

  lemma {:induction false} OtherUnregistered(s: seq<Candidate>, p: nat, ptr: nat)
    requires p != ptr
    ensures HandoffResult(Unregistered(s, p), ptr) == HandoffResult(s, ptr)
  {
    var k, i := CandidateAt(s, p), CandidateAt(s, ptr);
    if k < |s| {
      WithoutOne(s, k, ptr, i);
    }
  }

  lemma {:induction false} WithoutOne(s: seq<Candidate>, k: nat, ptr: nat, i: nat)
    requires k < |s| && s[k].ptr != ptr && i == CandidateAt(s, ptr)
    ensures var rest, j := s[..k] + s[k + 1..], if k < i then i - 1 else i;
            && CandidateAt(rest, ptr) == j && (j < |rest| <==> i < |s|) && (i < |s| ==> rest[j] == s[i])
  {
    hide CandidateAt;
    var rest: seq<Candidate>, j: nat := s[..k] + s[k + 1..], if k < i then i - 1 else i;
    CandidateAtIs(rest, ptr, j);
  }

  /** A candidate some free has marked stays marked. */
  lemma {:induction false} MarkedStays(s: System, step: Step, ptr: nat)
    requires Enabled(s, step) && !Withdraws(s, step, ptr)
    requires HandoffResult(s.candidates, ptr) == Freed
    ensures HandoffResult(After(s, step).candidates, ptr) == Freed
  {
    var i := CandidateAt(s.candidates, ptr);
    match step
    case Register(p) =>
      assert s.candidates[i] in s.candidates;
      CandidateAtIs([Candidate(p, false)] + s.candidates, ptr, i + 1);
    case Unregister(p) => OtherUnregistered(s.candidates, p, ptr);
    case Decide(t) =>
      if s.threads[t].id < |s.escapes| {
        OtherUnregistered(s.candidates, s.escapes[s.threads[t].id].ptr, ptr);
      }
    case Free(t, p) => CandidateAtIs(MarkedFreed(s.candidates, p), ptr, i);
    case _ =>
  }

  lemma {:induction false} MarkedThrough(ss: seq<System>, steps: seq<Step>, i: nat, j: nat, ptr: nat)
    requires IsRun(ss, steps) && i <= j < |ss| && HandoffResult(ss[i].candidates, ptr) == Freed
    requires forall k | i <= k < j :: !Withdraws(ss[k], steps[k], ptr)
    ensures HandoffResult(ss[j].candidates, ptr) == Freed
    decreases j
  {
    if i < j {
      MarkedThrough(ss, steps, i, j - 1, ptr);
      assert Enabled(ss[j - 1], steps[j - 1]) && ss[j - 1 + 1] == After(ss[j - 1], steps[j - 1]);
      MarkedStays(ss[j - 1], steps[j - 1], ptr);
    }
  }

  /** The step takes a pointer's candidate away, or marks it. */
  predicate Disturbs(s: System, step: Step, ptr: nat) {
    Withdraws(s, step, ptr) || (step.Free? && step.ptr == ptr)
  }

  /** A candidate nobody has freed stays unmarked. */
  lemma {:induction false} UnmarkedStays(s: System, step: Step, ptr: nat)
    requires Enabled(s, step) && !Disturbs(s, step, ptr)
    requires HandoffResult(s.candidates, ptr) == Owned
    ensures HandoffResult(After(s, step).candidates, ptr) == Owned
  {
    var i := CandidateAt(s.candidates, ptr);
    match step
    case Register(p) =>
      assert s.candidates[i] in s.candidates;
      CandidateAtIs([Candidate(p, false)] + s.candidates, ptr, i + 1);
    case Unregister(p) => OtherUnregistered(s.candidates, p, ptr);
    case Decide(t) =>
      if s.threads[t].id < |s.escapes| {
        OtherUnregistered(s.candidates, s.escapes[s.threads[t].id].ptr, ptr);
      }
    case Free(t, p) => CandidateAtIs(MarkedFreed(s.candidates, p), ptr, i);
    case _ =>
  }

  lemma {:induction false} UnmarkedThrough(ss: seq<System>, steps: seq<Step>, i: nat, j: nat, ptr: nat)
    requires IsRun(ss, steps) && i <= j < |ss| && HandoffResult(ss[i].candidates, ptr) == Owned
    requires forall k | i <= k < j :: !Disturbs(ss[k], steps[k], ptr)
    ensures HandoffResult(ss[j].candidates, ptr) == Owned
    decreases j
  {
    if i < j {
      UnmarkedThrough(ss, steps, i, j - 1, ptr);
      assert Enabled(ss[j - 1], steps[j - 1]) && ss[j - 1 + 1] == After(ss[j - 1], steps[j - 1]);
      UnmarkedStays(ss[j - 1], steps[j - 1], ptr);
    }
  }

  /**
   A pointer that was announced, and neither freed, withdrawn nor decided since, is owned
   by its handoff: from then on the list has its entry, free to take.
   */
  lemma {:induction false} AnnouncedIsOwned(ss: seq<System>, steps: seq<Step>, i: nat, j: nat, u: nat, ptr: nat)
    requires IsRun(ss, steps) && i < j < |steps| && steps[i] == Register(ptr)
    requires forall k | i < k < j :: !Disturbs(ss[k], steps[k], ptr)
    requires steps[j] == Step.Decide(u) && Withdraws(ss[j], steps[j], ptr)
    ensures var id := ss[j].threads[u].id;
            && Rogue(id, ptr, false) in ss[j + 1].rogues && ss[j + 1].threads[u] == Idle
            && id < |ss[j + 1].escapes| && ss[j + 1].escapes[id].phase == Held
  {
    assert Enabled(ss[i], steps[i]) && ss[i + 1] == After(ss[i], steps[i]);
    CandidateAtIs(ss[i + 1].candidates, ptr, 0);
    UnmarkedThrough(ss, steps, i + 1, j, ptr);
    assert Enabled(ss[j], steps[j]) && ss[j + 1] == After(ss[j], steps[j]);
    var id := ss[j].threads[u].id;
    assert ss[j + 1].rogues[0] == Rogue(id, ptr, false);
  }

  predicate Refusal(e: Escape) {
    e.phase.Returning? || e.phase.Refused?
  }

  lemma {:induction false} RefusalStays(s: System, step: Step, id: nat)
    requires Inv(s) && Enabled(s, step) && id < |s.escapes| && Refusal(s.escapes[id])
    ensures var s' := After(s, step); id < |s'.escapes| && Refusal(s'.escapes[id])
  {
    assert EntryOk(s.escapes[id], id, s.rogues);
    match step
    case Free(t, ptr) =>
      var k := RogueAt(s.rogues, ptr);
      if k < |s.rogues| { assert s.rogues[k] in s.rogues; }
    case Decide(t) => assert ThreadOk(s.threads[t], t, s.escapes);
    case GiveBack(t) => assert ThreadOk(s.threads[t], t, s.escapes);
    case Finish(t) => assert ThreadOk(s.threads[t], t, s.escapes);
    case _ =>
  }

  lemma {:induction false} RefusedThrough(ss: seq<System>, steps: seq<Step>, i: nat, j: nat, id: nat)
    requires IsRun(ss, steps) && i <= j < |ss| && id < |ss[i].escapes| && Refusal(ss[i].escapes[id])
    ensures id < |ss[j].escapes| && Refusal(ss[j].escapes[id])
    decreases j
  {
    hide Inv, Enabled, After, Refusal;
    if i < j {
      RefusedThrough(ss, steps, i, j - 1, id);
      RunInv(ss, steps, j - 1);
      assert Enabled(ss[j - 1], steps[j - 1]) && ss[j - 1 + 1] == After(ss[j - 1], steps[j - 1]);
      RefusalStays(ss[j - 1], steps[j - 1], id);
    }
  }

  /**
   A free before the handoff is decided: the handoff is refused, and the pointer's handed
   references never get an entry, now or later.
   */
  lemma {:induction false} FreedBeforeHandoff(ss: seq<System>, steps: seq<Step>, i: nat, j: nat, m: nat, t: nat, u: nat,
                                              ptr: nat)
    requires IsRun(ss, steps) && i < j < m < |ss|
    requires steps[i] == Free(t, ptr) && exists c :: c in ss[i].candidates && c.ptr == ptr
    requires forall k | i < k < j :: !Withdraws(ss[k], steps[k], ptr)
    requires steps[j] == Step.Decide(u) && Withdraws(ss[j], steps[j], ptr)
    ensures var id := ss[j].threads[u].id;
            && id < |ss[m].escapes| && Refusal(ss[m].escapes[id])
            && forall r | r in ss[m].rogues :: r.id != id
  {
    SingleEntry(ss, steps, i);
    var c := CandidateAt(ss[i].candidates, ptr);
    assert ss[i + 1] == After(ss[i], steps[i]);
    CandidateAtIs(ss[i + 1].candidates, ptr, c);
    MarkedThrough(ss, steps, i + 1, j, ptr);
    var id := ss[j].threads[u].id;
    assert Enabled(ss[j], steps[j]) && ss[j + 1] == After(ss[j], steps[j]);
    RefusedThrough(ss, steps, j + 1, m, id);
    RunInv(ss, steps, m);
    assert EntryOk(ss[m].escapes[id], id, ss[m].rogues);
  }

  /** While one thread gives the references back, every other free of the pointer succeeds and changes nothing. */
  lemma {:induction false} RepeatedFree(ss: seq<System>, steps: seq<Step>, i: nat, t: nat, ptr: nat)
    requires IsRun(ss, steps) && i < |ss| && Enabled(ss[i], Free(t, ptr))
    requires var k := RogueAt(ss[i].rogues, ptr);
             k < |ss[i].rogues| && ss[i].rogues[k].id < |ss[i].escapes|
             && ss[i].escapes[ss[i].rogues[k].id].phase.Dropping?
    ensures FreeResult(ss[i].candidates, ss[i].rogues, ptr) == Busy && After(ss[i], Free(t, ptr)) == ss[i]
  {
    RunInv(ss, steps, i);
    var s := ss[i];
    var r := s.rogues[RogueAt(s.rogues, ptr)];
    assert EntryOk(s.escapes[r.id], r.id, s.rogues);
    var j :| 0 <= j < |s.rogues| && s.rogues[j] == Rogue(r.id, s.escapes[r.id].ptr, true);
  }

  /** The first free after a handoff takes the pointer's only entry, and from then on it alone works on it. */
  lemma {:induction false} FreeTakesEntry(ss: seq<System>, steps: seq<Step>, i: nat, t: nat, ptr: nat)
    requires IsRun(ss, steps) && i < |ss| && Enabled(ss[i], Free(t, ptr))
    requires exists r :: r in ss[i].rogues && r.ptr == ptr && !r.freeing
    ensures FreeResult(ss[i].candidates, ss[i].rogues, ptr).Mine?
    ensures var id := FreeResult(ss[i].candidates, ss[i].rogues, ptr).id;
            var s' := After(ss[i], Free(t, ptr));
            && id < |ss[i].escapes| && ss[i].escapes[id].phase == Held && ss[i].escapes[id].ptr == ptr
            && (forall r | r in ss[i].rogues && r.ptr == ptr :: r == Rogue(id, ptr, false))
            && (forall r | r in s'.rogues && r.ptr == ptr :: r == Rogue(id, ptr, true))
            && s'.escapes[id].phase == Dropping(t, 0)
            && forall u | 0 <= u < |s'.threads| && u != t :: s'.threads[u].Idle? || s'.threads[u].id != id
  {
    RunInv(ss, steps, i);
    SingleEntry(ss, steps, i);
    var s := ss[i];
    OnlyEntry(s.rogues, ptr);
    var k := RogueAt(s.rogues, ptr);
    var r := s.rogues[k];
    assert r in s.rogues && FirstRogue(s.rogues, ptr, k);
    assert EntryOk(s.escapes[r.id], r.id, s.rogues);
    OthersListed(s.rogues, k, r.id);
    forall u | 0 <= u < |s.threads| && u != t && !s.threads[u].Idle?
      ensures s.threads[u].id != r.id
    {
      assert ThreadOk(s.threads[u], u, s.escapes);
    }
  }

  lemma {:induction false} OnlyEntry(s: seq<Rogue>, ptr: nat)
    requires RoguesApart(s)
    ensures var k := RogueAt(s, ptr);
            && (forall r | r in s && r.ptr == ptr :: k < |s| && r == s[k])
            && (forall r | r in MarkedFreeing(s, ptr) && r.ptr == ptr :: k < |s| && r == s[k].(freeing := true))
  {
    var k, s' := RogueAt(s, ptr), MarkedFreeing(s, ptr);
    assert forall j | 0 <= j < |s| && j != k :: s[j].ptr != ptr;
    assert forall j | 0 <= j < |s'| && j != k :: s'[j] == s[j];
  }
}
