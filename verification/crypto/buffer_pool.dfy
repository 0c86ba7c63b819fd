/** Native buffers: each is handed out once, counted, and given one release attempt. */
module BufferPools {
  import opened WireBytes
  import opened Settlements
  import opened CryptoLedgers
  import opened CryptoCalls

  const MAX_SLOTS := 64
  const MAX_LIVE := 5
  const MAX_CAPACITY := 65536

  /** The allocator of the native library. Any call may fail or throw, and either function
      may be missing. */
  class Memory {
    const canAllocate: bool
    const canFree: bool
    /** How many buffers were handed out, and which ones were passed to the free function. */
    ghost var given: nat
    ghost var freed: seq<nat>
    /** Whether some call did not do what it was asked for. */
    ghost var failed: bool

    constructor (canAllocate: bool, canFree: bool)
      ensures this.canAllocate == canAllocate && this.canFree == canFree && given == 0 && freed == [] && !failed
    {
      this.canAllocate, this.canFree, given, freed, failed := canAllocate, canFree, 0, [], false;
    }

    /** Both functions are there, and no call of them failed. */
    ghost predicate Reliable()
      reads this`failed
    {
      canAllocate && canFree && !failed
    }

    method Allocate() returns (threw: bool, present: bool, ghost block: nat)
      modifies this`given, this`failed
      ensures failed == (old(failed) || !present)
      ensures present ==> !threw
      ensures present ==> block == old(given) && given == old(given) + 1
      ensures !present ==> given == old(given)
    {
      threw, present := *, *;
      present := present && !threw;
      failed := failed || !present;
      block := given;
      if present { given := given + 1; }
    }

    method Free(ghost block: nat) returns (threw: bool)
      modifies this`freed, this`failed
      ensures freed == old(freed) + [block] && failed == (old(failed) || threw)
    {
      freed := freed + [block];
      threw := *;
      failed := failed || threw;
    }
  }

  datatype Slot = Slot(capacity: nat, active: bool, attempted: bool, succeeded: bool, unknown: bool)

  function Attempts(slots: seq<Slot>): (n: nat)
    ensures n <= |slots|
  {
    if slots == [] then 0 else Attempts(slots[..|slots| - 1]) + if slots[|slots| - 1].attempted then 1 else 0
  }

  function Successes(slots: seq<Slot>): (n: nat)
    ensures n <= |slots|
  {
    if slots == [] then 0 else Successes(slots[..|slots| - 1]) + if slots[|slots| - 1].succeeded then 1 else 0
  }

  lemma CountsAppend(slots: seq<Slot>, s: Slot)
    ensures Attempts(slots + [s]) == Attempts(slots) + if s.attempted then 1 else 0
    ensures Successes(slots + [s]) == Successes(slots) + if s.succeeded then 1 else 0
  {
    assert (slots + [s])[..|slots|] == slots;
  }

  lemma {:induction false} CountsUpdate(slots: seq<Slot>, i: nat, s: Slot)
    requires i < |slots| && !slots[i].attempted && !slots[i].succeeded && s.attempted
    ensures Attempts(slots[i := s]) == Attempts(slots) + 1 && Attempts(slots) < |slots|
    ensures Successes(slots[i := s]) == Successes(slots) + if s.succeeded then 1 else 0
  {
    var n := |slots| - 1;
    if i == n {
      assert slots[i := s][..n] == slots[..n];
    } else {
      CountsUpdate(slots[..n], i, s);
      assert slots[i := s][..n] == slots[..n][i := s];
    }
  }

  lemma {:induction false} AllAttempted(slots: seq<Slot>)
    requires forall i | 0 <= i < |slots| :: slots[i].attempted
    ensures Attempts(slots) == |slots|
  {
    if slots != [] { AllAttempted(slots[..|slots| - 1]); }
  }

  /** A slot was released at most once, and is either released for certain or unknown. */
  predicate Coherent(s: Slot) {
    (s.succeeded ==> s.attempted) && (s.unknown ==> s.attempted) && (s.attempted ==> s.succeeded != s.unknown)
  }

  /** Handed out is what is live and what was released; every release attempt succeeded or
      is unknown. */
  ghost predicate Held(l: Ledger, slots: seq<Slot>) {
    && Sane(l) && (forall s | s in slots :: Coherent(s))
    && l.counters.buffersAllocated == |slots| == l.abiCalls[ALLOCATION].accepted
    && l.counters.buffersLive == |slots| - Successes(slots) <= MAX_LIVE
    && l.counters.releasesAttempted == l.abiCalls[FREEING].attempted == Attempts(slots)
    && l.counters.releasesSucceeded == Successes(slots)
    && l.counters.releasesSucceeded + l.counters.releasesUnknown == Attempts(slots)
  }

  /** Exactly the slots with an attempt went to the free function, each once. */
  ghost predicate FreedOnce(slots: seq<Slot>, freed: seq<nat>, canFree: bool) {
    forall k: nat :: multiset(freed)[k] == if k < |slots| && slots[k].attempted && canFree then 1 else 0
  }

  lemma HeldSame(l: Ledger, m: Ledger, slots: seq<Slot>)
    requires Held(l, slots) && Sane(m) && SameBuffers(l, m)
    ensures Held(m, slots) && m.counters.duplicateReleaseAttempts == l.counters.duplicateReleaseAttempts
  {
  }

  lemma HeldSays(l: Ledger, slots: seq<Slot>)
    requires Held(l, slots)
    ensures |l.abiCalls| == 7 && Sane(l) && SameBuffers(l, l)
    ensures l.counters.buffersAllocated == |slots| && l.counters.releasesAttempted == Attempts(slots)
    ensures l.counters.buffersAllocated == l.counters.releasesSucceeded + l.counters.buffersLive
  {
  }

  lemma HeldSlot(l: Ledger, slots: seq<Slot>, i: nat)
    requires Held(l, slots) && i < |slots|
    ensures Coherent(slots[i])
  {
    assert slots[i] in slots;
  }

  /** One more buffer. */
  function Handed(l: Ledger): Ledger
    requires |l.abiCalls| == 7
  {
    var m := Taken(l, ALLOCATION);
    m.(counters := m.counters.(buffersAllocated := Inc(m.counters.buffersAllocated),
        buffersLive := Inc(m.counters.buffersLive)))
  }

  /** One more attempt to free. */
  function Freeing(l: Ledger): Ledger
    requires |l.abiCalls| == 7
  {
    var m := Attempted(l, FREEING);
    m.(counters := m.counters.(releasesAttempted := Inc(m.counters.releasesAttempted)))
  }

  /** It succeeded. */
  function FreedWell(l: Ledger): Ledger
    requires |l.abiCalls| == 7
  {
    var m := Taken(Returned(l, FREEING, true), FREEING);
    m.(counters := m.counters.(releasesSucceeded := Inc(m.counters.releasesSucceeded),
                               buffersLive := if m.counters.buffersLive > 0 then m.counters.buffersLive - 1 else 0))
  }

  /** It did not, as far as anybody knows. */
  function FreedBadly(l: Ledger): Ledger
    requires |l.abiCalls| == 7
  {
    var m := Thrown(l, FREEING);
    m.(counters := m.counters.(releasesUnknown := Inc(m.counters.releasesUnknown)))
  }

  lemma HeldHanded(l: Ledger, slots: seq<Slot>, capacity: nat)
    requires Held(l, slots) && l.abiCalls[ALLOCATION].attempted < CALL_LIMITS[ALLOCATION]
        && l.counters.buffersLive < MAX_LIVE
    ensures var m := Handed(Returned(Attempted(l, ALLOCATION), ALLOCATION, true));
            Held(m, slots + [Slot(capacity, true, false, false, false)])
            && m.counters.budgetRejections == l.counters.budgetRejections && m.stopped == l.stopped
    ensures Held(Thrown(Attempted(l, ALLOCATION), ALLOCATION), slots)
    ensures Held(Refused(Returned(Attempted(l, ALLOCATION), ALLOCATION, true), ALLOCATION), slots)
  {
    var i := ALLOCATION;
    TotalIsBelow(l, i);
    var m := Attempted(l, i);
    ThrownIsSane(m, i);
    ReturnedIsSane(m, i, true);
    TakenIsSane(Returned(m, i, true), i);
    SaneBuffers(Taken(Returned(m, i, true), i), Handed(Returned(m, i, true)));
    CountsAppend(slots, Slot(capacity, true, false, false, false));
    hide SaneBut, Attempts, Successes;
  }

  /** Sanity does not look at the buffer counters. */
  lemma SaneBuffers(l: Ledger, m: Ledger)
    requires Sane(l) && m.abiCalls == l.abiCalls && m.counters.abiAttemptedTotal == l.counters.abiAttemptedTotal
    ensures Sane(m)
  {
  }

  lemma HeldFreed(l: Ledger, slots: seq<Slot>, i: nat, s: Slot)
    requires Held(l, slots) && i < |slots| && !slots[i].attempted && s.attempted && Coherent(s)
    ensures l.abiCalls[FREEING].attempted < CALL_LIMITS[FREEING]
    ensures s.succeeded ==> Held(FreedWell(Freeing(l)), slots[i := s])
    ensures !s.succeeded ==> Held(FreedBadly(Freeing(l)), slots[i := s])
    ensures FreedWell(Freeing(l)).counters.budgetRejections == FreedBadly(Freeing(l)).counters.budgetRejections
            == l.counters.budgetRejections
  {
    assert slots[i] in slots;
    CountsUpdate(slots, i, s);
    assert SaneCalls(l.abiCalls[ALLOCATION], CALL_LIMITS[ALLOCATION], 0);
    TotalIsBelow(l, FREEING);
    var m := Attempted(l, FREEING);
    ThrownIsSane(m, FREEING);
    ReturnedIsSane(m, FREEING, true);
    TakenIsSane(Returned(m, FREEING, true), FREEING);
    SaneBuffers(Taken(Returned(m, FREEING, true), FREEING), FreedWell(Freeing(l)));
    SaneBuffers(Thrown(m, FREEING), FreedBadly(Freeing(l)));
    hide SaneBut, Attempts, Successes;
    forall x | x in slots[i := s] ensures Coherent(x) { if x != s { assert x in slots; } }
  }

  lemma AtHanded(l: Ledger, k: nat, b: nat, f: nat)
    requires At(l, k, k, b, f) && b < 45
    ensures At(Handed(Returned(Attempted(l, ALLOCATION), ALLOCATION, true)), k, k, b + 1, f)
    ensures l.abiCalls[ALLOCATION].attempted < CALL_LIMITS[ALLOCATION]
  {
    hide StepBits, CallsAfter;
  }

  lemma AtFreed(l: Ledger, k: nat, b: nat, f: nat)
    requires At(l, k, k, b, f) && f < b
    ensures At(FreedWell(Freeing(l)), k, k, b, f + 1)
  {
    hide StepBits, CallsAfter;
  }

  lemma SettledBuffers(l: Ledger)
    requires AllSettled(l)
    ensures AllSettled(Handed(Returned(Attempted(l, ALLOCATION), ALLOCATION, true)))
        && AllSettled(FreedWell(Freeing(l)))
  {
  }

  lemma FreedMore(slots: seq<Slot>, freed: seq<nat>, canFree: bool, i: nat, s: Slot)
    requires FreedOnce(slots, freed, canFree) && i < |slots| && !slots[i].attempted && s.attempted
    ensures FreedOnce(slots[i := s], if canFree then freed + [i] else freed, canFree)
  {
    if canFree {
      forall k: nat ensures multiset(freed + [i])[k] == multiset(freed)[k] + if k == i then 1 else 0 { }
    }
  }

  lemma FreedSame(slots: seq<Slot>, freed: seq<nat>, canFree: bool, s: Slot)
    requires FreedOnce(slots, freed, canFree) && !s.attempted
    ensures FreedOnce(slots + [s], freed, canFree)
  {
  }

  /** m is l with one allocation reserved. */
  predicate Reserving(l: Ledger, m: Ledger) {
    && |l.abiCalls| == 7 && l.abiCalls[ALLOCATION].attempted < CALL_LIMITS[ALLOCATION] && m == Attempted(l, ALLOCATION)
  }

  /** What becomes of an allocation that was reserved. */
  lemma TakeSays(l: Ledger, slots: seq<Slot>, capacity: nat, k: nat, b: nat, f: nat)
    requires Held(l, slots) && l.abiCalls[ALLOCATION].attempted < CALL_LIMITS[ALLOCATION]
        && l.counters.buffersLive < MAX_LIVE
    ensures var m := Attempted(l, ALLOCATION);
            var thrown, refused := Thrown(m, ALLOCATION), Refused(Returned(m, ALLOCATION, true), ALLOCATION);
            var handed := Handed(Returned(m, ALLOCATION, true));
            && Held(thrown, slots) && Held(refused, slots)
            && Held(handed, slots + [Slot(capacity, true, false, false, false)])
            && thrown.counters.duplicateReleaseAttempts == refused.counters.duplicateReleaseAttempts
               == handed.counters.duplicateReleaseAttempts == l.counters.duplicateReleaseAttempts
            && thrown.counters.budgetRejections == refused.counters.budgetRejections
               == handed.counters.budgetRejections == l.counters.budgetRejections
            && Latched(l, thrown) && Latched(l, refused) && Latched(l, handed) && handed.stopped == l.stopped
            && (AllSettled(l) ==> AllSettled(handed))
            && (At(l, k, k, b, f) && b < 45 ==> l.counters.budgetRejections == 0 && At(handed, k, k, b + 1, f))
  {
    HeldHanded(l, slots, capacity);
    if At(l, k, k, b, f) && b < 45 {
      AtHanded(l, k, b, f);
      AtSays(l, k, k, b, f);
    }
    if AllSettled(l) { SettledBuffers(l); }
    hide Held, At, AllSettled, StepBits;
  }

  lemma HeldDuplicate(l: Ledger, slots: seq<Slot>)
    requires Held(l, slots)
    ensures Held(l.(counters := l.counters.(duplicateReleaseAttempts := Inc(l.counters.duplicateReleaseAttempts))),
        slots)
  {
  }

  /** What becomes of a release attempt. */
  lemma FreeSays(l: Ledger, slots: seq<Slot>, i: nat, good: Slot, bad: Slot, k: nat, b: nat, f: nat)
    requires Held(l, slots) && i < |slots| && !slots[i].attempted
    requires good.attempted && good.succeeded && !good.unknown && bad.attempted && !bad.succeeded && bad.unknown
    ensures Sane(l) && |l.abiCalls| == 7 && l.abiCalls[FREEING].attempted < CALL_LIMITS[FREEING]
    ensures var well, badly := FreedWell(Freeing(l)), FreedBadly(Freeing(l));
            && Held(well, slots[i := good]) && Held(badly, slots[i := bad])
            && well.counters.budgetRejections == badly.counters.budgetRejections == l.counters.budgetRejections
            && well.counters.duplicateReleaseAttempts == badly.counters.duplicateReleaseAttempts
               == l.counters.duplicateReleaseAttempts
            && well.stopped == l.stopped && Latched(l, well) && Latched(l, badly)
            && (AllSettled(l) ==> AllSettled(well))
            && (At(l, k, k, b, f) && f < b ==> At(well, k, k, b, f + 1))
  {
    HeldSays(l, slots);
    HeldFreed(l, slots, i, good);
    HeldFreed(l, slots, i, bad);
    if At(l, k, k, b, f) && f < b { AtFreed(l, k, b, f); }
    if AllSettled(l) { SettledBuffers(l); }
    hide Held, At, AllSettled, StepBits;
  }

  lemma StopHeld(l: Ledger, slots: seq<Slot>, step: string, status: Int32, code: string)
    requires Held(l, slots)
    ensures Held(Stopped(l, step, status, code), slots) && Latched(l, Stopped(l, step, status, code))
  {
    SaneSays(l);
    StoppedSays(l, step, status, code);
    hide Sane, SameBuffers, Stopped;
    HeldSame(l, Stopped(l, step, status, code), slots);
  }

  // ----- the pool

  class BufferPool {
    const book: Book
    const memory: Memory
    var slots: seq<Slot>
    /** How often an allocation was refused before it was tried. */
    ghost var refusals: nat

    constructor (book: Book, memory: Memory)
      requires Held(book.ledger, []) && memory.given == 0 && memory.freed == []
      ensures Valid() && this.book == book && this.memory == memory && slots == [] && refusals == 0
    {
      this.book, this.memory, slots, refusals := book, memory, [], 0;
    }

    ghost predicate Valid()
      reads this, book, memory
    {
      && Held(book.ledger, slots) && FreedOnce(slots, memory.freed, memory.canFree) && memory.given == |slots|
    }

    /** Only live slots may still be released. */
    ghost predicate Waiting(first: nat)
      reads this
    {
      first <= |slots| && (forall i | 0 <= i < first :: slots[i].attempted)
          && (forall i | first <= i < |slots| :: !slots[i].attempted)
    }

    /** Hands out a zeroed buffer, if the run goes on, the budget allows it and the
        allocator has one. */
    method Allocate(capacity: nat, ghost k: nat, ghost b: nat, ghost f: nat) returns (ok: bool, slot: nat)
      requires Valid()
      modifies this, book`ledger, book`answers, memory`given, memory`failed
      ensures (old(book.Trouble()) ==> book.Trouble()) && (old(memory.failed) ==> memory.failed)
      ensures (&& !ok && !old(book.ledger).stopped && 0 < capacity <= MAX_CAPACITY && |old(slots)| < 45
               && old(book.ledger).counters.buffersLive < MAX_LIVE && At(old(book.ledger), k, k, b, f) && b < 45)
              ==> book.Trouble() || !memory.Reliable()
      ensures Valid() && Latched(old(book.ledger), book.ledger)
      ensures slot == if ok then |old(slots)| else MAX_SLOTS
      ensures slots == if ok then old(slots) + [Slot(capacity, true, false, false, false)] else old(slots)
      ensures old(book.ledger).stopped ==> !ok
      ensures refusals == old(refusals)
              || old(book.ledger).stopped || capacity == 0 || capacity > MAX_CAPACITY || |old(slots)| >= MAX_SLOTS
              || old(book.ledger).counters.buffersLive >= MAX_LIVE || !memory.canAllocate
      ensures At(old(book.ledger), k, k, b, f) && b < 45 ==>
        book.ledger.counters.budgetRejections == 0 && (ok ==> At(book.ledger, k, k, b + 1, f))
      ensures ok && NothingUnknown(old(book.ledger), book.native) ==> NothingUnknown(book.ledger, book.native)
      ensures ok ==> !book.ledger.stopped
      ensures book.ledger.counters.duplicateReleaseAttempts == old(book.ledger).counters.duplicateReleaseAttempts
    {
      hide At, Held, FreedOnce, Sane, SameBuffers, AllSettled, Attempted, Reserving, Troubled;
      HeldSays(book.ledger, slots);
      if At(book.ledger, k, k, b, f) { AtSays(book.ledger, k, k, b, f); }
      slot, ok := MAX_SLOTS, false;
      if book.ledger.stopped || capacity == 0 || capacity > MAX_CAPACITY || |slots| >= MAX_SLOTS
         || book.ledger.counters.buffersLive >= MAX_LIVE || !memory.canAllocate {
        Refuse();
        return;
      }
      ghost var l;
      ok, l := Prepare(k, b, f);
      if !ok { return; }
      TickedKeeps(old(book.ledger), l, k, k, b, f);
      ok := Take(capacity, l, k, b, f);
      if ok { slot := |slots| - 1; }
    }

    method Refuse()
      requires Valid()
      modifies this`refusals, book`ledger
      ensures Valid() && Latched(old(book.ledger), book.ledger) && refusals == old(refusals) + 1
      ensures book.ledger.counters == old(book.ledger).counters
    {
      hide At, Held, FreedOnce, Sane, SameBuffers, Stopped;
      refusals := refusals + 1;
      StopHeld(book.ledger, slots, "buffer_alloc_precondition", -1, "BUDGET_EXCEEDED");
      book.Stop("buffer_alloc_precondition", -1, "BUDGET_EXCEEDED");
    }

    /** Clock and budget of an allocation. The ledger before the reservation is l. */
    method Prepare(ghost k: nat, ghost b: nat, ghost f: nat) returns (ok: bool, ghost l: Ledger)
      requires Valid() && !book.ledger.stopped
      modifies book`ledger, book`answers
      ensures old(book.Trouble()) ==> book.Trouble()
      ensures !ok && At(old(book.ledger), k, k, b, f) && b < 45 ==> book.Trouble()
      ensures Latched(old(book.ledger), book.ledger)
      ensures book.ledger.counters.duplicateReleaseAttempts == old(book.ledger).counters.duplicateReleaseAttempts
      ensures !ok ==> Valid() && (At(old(book.ledger), k, k, b, f) && b < 45 ==>
          book.ledger.counters.budgetRejections == 0)
      ensures ok ==> Reserving(l, book.ledger) && Held(l, slots) && Ticked(old(book.ledger), l) && !l.stopped
    {
      SaneSays(book.ledger);
      if At(book.ledger, k, k, b, f) {
        AtSays(book.ledger, k, k, b, f);
        if b < 45 { AtHanded(book.ledger, k, b, f); }
      }
      hide At, Held, FreedOnce, SaneBut, StepBits, Troubled;
      ok := book.CheckClock("buffer_alloc");
      l := book.ledger;
      TickedKeeps(old(book.ledger), l, k, k, b, f);
      HeldSame(old(book.ledger), l, slots);
      if !ok { return; }
      ok := book.ReserveAbi(ALLOCATION);
      if !ok { HeldSame(l, book.ledger, slots); }
    }

    /** The allocation itself. */
    method Take(capacity: nat, ghost l: Ledger, ghost k: nat, ghost b: nat, ghost f: nat) returns (ok: bool)
      requires Reserving(l, book.ledger) && Held(l, slots) && l.counters.buffersLive < MAX_LIVE && !l.stopped
      requires FreedOnce(slots, memory.freed, memory.canFree) && memory.given == |slots|
      modifies this`slots, book`ledger, memory`given, memory`failed
      ensures (old(memory.failed) ==> memory.failed) && (!ok ==> memory.failed)
      ensures Valid() && Latched(l, book.ledger)
      ensures slots == if ok then old(slots) + [Slot(capacity, true, false, false, false)] else old(slots)
      ensures At(l, k, k, b, f) && b < 45 ==>
        book.ledger.counters.budgetRejections == 0 && (ok ==> At(book.ledger, k, k, b + 1, f))
      ensures ok ==> !book.ledger.stopped && (AllSettled(l) ==> AllSettled(book.ledger))
      ensures book.ledger.counters.duplicateReleaseAttempts == l.counters.duplicateReleaseAttempts
    {
      TakeSays(l, slots, capacity, k, b, f);
      FreedSame(slots, memory.freed, memory.canFree, Slot(capacity, true, false, false, false));
      hide At, Held, FreedOnce, AllSettled, Attempted, Returned, Thrown, Refused, Handed;
      var threw, present;
      ghost var block;
      threw, present, block := memory.Allocate();
      ok := present;
      if threw {
        book.ledger := Thrown(book.ledger, ALLOCATION);
        StopHeld(book.ledger, slots, "buffer_alloc_exception", -1, "SETTLEMENT_UNKNOWN");
        book.Stop("buffer_alloc_exception", -1, "SETTLEMENT_UNKNOWN");
        return;
      }
      book.ledger := Returned(book.ledger, ALLOCATION, true);
      if !present {
        book.ledger := Refused(book.ledger, ALLOCATION);
        StopHeld(book.ledger, slots, "buffer_alloc_null", RESOURCE_LIMIT, "BUDGET_EXCEEDED");
        book.Stop("buffer_alloc_null", RESOURCE_LIMIT, "BUDGET_EXCEEDED");
        return;
      }
      book.ledger := Handed(book.ledger);
      slots := slots + [Slot(capacity, true, false, false, false)];
    }

    /** The one release attempt of a slot. A second one, or one for a slot that was never
        handed out, touches no buffer and stops the run. */
    method Release(slot: nat, ghost k: nat, ghost b: nat, ghost f: nat) returns (ok: bool)
      requires Valid()
      modifies this`slots, book`ledger, memory`freed, memory`failed
      ensures old(memory.failed) ==> memory.failed
      ensures Valid() && Latched(old(book.ledger), book.ledger) && |slots| == |old(slots)|
      ensures slot < |old(slots)| && !old(slots)[slot].attempted ==>
        && slots[slot].attempted && slots == old(slots)[slot := slots[slot]]
        && book.ledger.counters.duplicateReleaseAttempts == old(book.ledger).counters.duplicateReleaseAttempts
        && book.ledger.counters.budgetRejections == old(book.ledger).counters.budgetRejections
        && (ok ==> slots[slot].succeeded && book.ledger.stopped == old(book.ledger).stopped)
        && (!ok ==> !memory.Reliable())
        && (ok && At(old(book.ledger), k, k, b, f) && f < b ==> At(book.ledger, k, k, b, f + 1))
        && (ok && NothingUnknown(old(book.ledger), book.native) ==> NothingUnknown(book.ledger, book.native))
      ensures slot >= |old(slots)| || old(slots)[slot].attempted ==>
          !ok && slots == old(slots)
          && memory.freed == old(memory.freed)
    {
      hide At, Held, FreedOnce, Sane, SameBuffers, AllSettled, Stopped, Attempts, Successes;
      ok := false;
      if slot >= |slots| {
        StopHeld(book.ledger, slots, "unknown_buffer_slot", -1, "OWNERSHIP_UNKNOWN");
        book.Stop("unknown_buffer_slot", -1, "OWNERSHIP_UNKNOWN");
        return;
      }
      if slots[slot].attempted {
        Duplicate();
        return;
      }
      ok := ReleaseOnce(slot, k, b, f);
    }

    method Duplicate()
      requires Valid()
      modifies book`ledger
      ensures Valid() && Latched(old(book.ledger), book.ledger)
    {
      var l := book.ledger;
      HeldDuplicate(l, slots);
      hide Held, FreedOnce, Stopped;
      book.ledger := l.(counters := l.counters.(duplicateReleaseAttempts := Inc(l.counters.duplicateReleaseAttempts)));
      StopHeld(book.ledger, slots, "duplicate_buffer_release", -1, "OWNERSHIP_UNKNOWN");
      book.Stop("duplicate_buffer_release", -1, "OWNERSHIP_UNKNOWN");
    }

    method ReleaseOnce(slot: nat, ghost k: nat, ghost b: nat, ghost f: nat) returns (ok: bool)
      requires Valid() && slot < |slots| && !slots[slot].attempted
      modifies this`slots, book`ledger, memory`freed, memory`failed
      ensures old(memory.failed) ==> memory.failed
      ensures Valid() && Latched(old(book.ledger), book.ledger)
      ensures |slots| == |old(slots)| && slots == old(slots)[slot := slots[slot]] && slots[slot].attempted
      ensures book.ledger.counters.duplicateReleaseAttempts == old(book.ledger).counters.duplicateReleaseAttempts
      ensures book.ledger.counters.budgetRejections == old(book.ledger).counters.budgetRejections
      ensures ok ==> slots[slot].succeeded && book.ledger.stopped == old(book.ledger).stopped
      ensures !ok ==> !memory.Reliable()
      ensures ok && At(old(book.ledger), k, k, b, f) && f < b ==> At(book.ledger, k, k, b, f + 1)
      ensures ok && AllSettled(old(book.ledger)) ==> AllSettled(book.ledger)
    {
      hide At, Held, FreedOnce, SaneBut, AllSettled, FreedWell, FreedBadly, Stopped;
      ghost var was, l := slots, book.ledger;
      HeldSlot(l, was, slot);
      var good, bad := slots[slot].(attempted := true, active := false, succeeded := true),
          slots[slot].(attempted := true, unknown := true);
      FreeSays(l, was, slot, good, bad, k, b, f);
      FreedMore(was, memory.freed, memory.canFree, slot, good);
      FreedMore(was, memory.freed, memory.canFree, slot, bad);
      var reserved := book.ReserveAbi(FREEING);
      // There is budget for as many frees as for allocations.
      if !reserved { assert false; }
      var counters := book.ledger.counters;
      book.ledger := book.ledger.(counters := counters.(releasesAttempted := Inc(counters.releasesAttempted)));
      var threw := true;
      if memory.canFree { threw := memory.Free(slot); }
      ok := !threw;
      if ok {
        book.ledger := FreedWell(book.ledger);
        slots := slots[slot := good];
      } else {
        book.ledger := FreedBadly(book.ledger);
        slots := slots[slot := bad];
        StopHeld(book.ledger, slots, "buffer_release_unknown", -1, "SETTLEMENT_UNKNOWN");
        book.Stop("buffer_release_unknown", -1, "SETTLEMENT_UNKNOWN");
      }
    }

    /** Whatever is left gets its attempt, the youngest first. */
    method ReleaseAllRemaining()
      requires Valid()
      modifies this`slots, book`ledger, memory`freed, memory`failed
      ensures old(memory.failed) ==> memory.failed
      ensures Valid() && Latched(old(book.ledger), book.ledger) && |slots| == |old(slots)|
      ensures forall i | 0 <= i < |slots| :: slots[i].attempted
      ensures book.ledger.counters.duplicateReleaseAttempts == old(book.ledger).counters.duplicateReleaseAttempts
      ensures book.ledger.counters.budgetRejections == old(book.ledger).counters.budgetRejections
      ensures (forall i | 0 <= i < |old(slots)| :: old(slots)[i].attempted) ==>
        slots == old(slots) && book.ledger == old(book.ledger) && memory.freed == old(memory.freed)
    {
      hide At, Held, FreedOnce, AllSettled;
      var i := |slots|;
      while i > 0
        invariant 0 <= i <= |slots| == |old(slots)| && Valid() && Latched(old(book.ledger), book.ledger)
        invariant forall j | i <= j < |slots| :: slots[j].attempted
        invariant slots[..i] == old(slots)[..i] && (old(memory.failed) ==> memory.failed)
        invariant book.ledger.counters.duplicateReleaseAttempts == old(book.ledger).counters.duplicateReleaseAttempts
        invariant book.ledger.counters.budgetRejections == old(book.ledger).counters.budgetRejections
        invariant (forall j | 0 <= j < |old(slots)| :: old(slots)[j].attempted) ==>
          slots == old(slots) && book.ledger == old(book.ledger) && memory.freed == old(memory.freed)
      {
        i := i - 1;
        assert slots[i] == old(slots)[..i + 1][i];
        if !slots[i].attempted { var released := Release(i, 0, 0, 0); }
      }
    }
  }
}
