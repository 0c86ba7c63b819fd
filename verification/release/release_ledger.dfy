/** The release ledger: what was acquired, by whom, and what became of the one release each
    owner may attempt. A PASS is a statement about every single entry. */
module ReleaseLedgers {
  import opened WireBytes
  import opened PermissionLog

  datatype ResourceKind = ProcessHandle | ThreadHandle | PipeHandle | AbiBuffer | CngProvider | CngKey | CertContext
                        | LocalAllocBlob | ProtectedLockLease | StoreTicket | TempFileHandle | PublishedObject

  datatype Entry = Entry(id: U64, owner: string, kind: ResourceKind, parent: U64, attempted: bool, released: bool,
                         quarantined: bool, exitVerified: bool)

  datatype Verdict = NotRun | Passed | Failed | Unknown

  const MAX_RELEASE_MS := 30000

  /** What happened, in order. */
  datatype Happening =
    | Acquired(id: U64, owner: string, kind: ResourceKind)
    | ExitSeen(id: U64)
    | ReleaseCalled(id: U64, owner: string, succeeded: bool, ok: bool)
    | SettledWhile(inFlight: nat)

  // ----- counting entries

  function Released(es: seq<Entry>): (n: nat)
    ensures n <= |es|
  {
    if es == [] then 0 else Released(es[..|es| - 1]) + if es[|es| - 1].released then 1 else 0
  }

  function Quarantined(es: seq<Entry>): (n: nat)
    ensures n <= |es|
  {
    if es == [] then 0 else Quarantined(es[..|es| - 1]) + if es[|es| - 1].quarantined then 1 else 0
  }

  lemma CountsAppend(es: seq<Entry>, e: Entry)
    ensures Released(es + [e]) == Released(es) + if e.released then 1 else 0
    ensures Quarantined(es + [e]) == Quarantined(es) + if e.quarantined then 1 else 0
  {
    assert (es + [e])[..|es|] == es;
  }

  lemma {:induction false} CountsUpdate(es: seq<Entry>, i: nat, e: Entry)
    requires i < |es|
    ensures Released(es[i := e]) == Released(es) - (if es[i].released then 1 else 0) + if e.released then 1 else 0
    ensures Quarantined(es[i := e]) == Quarantined(es) - (if es[i].quarantined then 1 else 0) + if e.quarantined
        then 1 else 0
  {
    var n := |es| - 1;
    if i == n {
      assert es[i := e][..n] == es[..n];
    } else {
      CountsUpdate(es[..n], i, e);
      assert es[i := e][..n] == es[..n][i := e];
    }
  }

  /** Nothing is released, or everything: the count says which. */
  lemma {:induction false} AllReleased(es: seq<Entry>)
    ensures Released(es) == |es| <==> forall i | 0 <= i < |es| :: es[i].released
  {
    if es != [] {
      AllReleased(es[..|es| - 1]);
    }
  }

  lemma {:induction false} NoneQuarantined(es: seq<Entry>)
    requires forall i | 0 <= i < |es| :: !es[i].quarantined
    ensures Quarantined(es) == 0
  {
    if es != [] { NoneQuarantined(es[..|es| - 1]); }
  }

  // ----- the invariant

  predicate Coherent(e: Entry) {
    && (e.attempted <==> e.released || e.quarantined) && !(e.released && e.quarantined)
    && (e.released && e.kind == ProcessHandle ==> e.exitVerified)
  }

  ghost predicate Distinct(es: seq<Entry>) {
    forall i, j | 0 <= i < j < |es| :: es[i].id != es[j].id
  }

  /** How often a release of this resource was reported a success. */
  function Successes(log: seq<Happening>, id: U64): nat {
    if log == [] then 0
    else
      var h := log[|log| - 1];
      Successes(log[..|log| - 1], id) + if h.ReleaseCalled? && h.id == id && h.ok then 1 else 0
  }

  lemma SuccessesAppend(log: seq<Happening>, h: Happening, id: U64)
    ensures Successes(log + [h], id) == Successes(log, id) + if h.ReleaseCalled? && h.id == id && h.ok then 1 else 0
  {
    assert (log + [h])[..|log|] == log;
  }

  /** The exit of a process was seen, and after that its release succeeded. */
  ghost predicate ExitedThenReleased(log: seq<Happening>, id: U64, owner: string) {
    exists i, j | 0 <= i < j < |log| :: log[i] == ExitSeen(id) && log[j] == ReleaseCalled(id, owner, true, true)
  }

  lemma ExitedThenReleasedMore(log: seq<Happening>, h: Happening, id: U64, owner: string)
    ensures ExitedThenReleased(log, id, owner) ==> ExitedThenReleased(log + [h], id, owner)
    ensures ExitSeen(id) in log && h == ReleaseCalled(id, owner, true, true) ==>
        ExitedThenReleased(log + [h], id, owner)
  {
    var more := log + [h];
    if ExitedThenReleased(log, id, owner) {
      var i, j :| 0 <= i < j < |log| && log[i] == ExitSeen(id) && log[j] == ReleaseCalled(id, owner, true, true);
      assert more[i] == ExitSeen(id) && more[j] == ReleaseCalled(id, owner, true, true);
    }
    if ExitSeen(id) in log && h == ReleaseCalled(id, owner, true, true) {
      var i :| 0 <= i < |log| && log[i] == ExitSeen(id);
      assert more[i] == ExitSeen(id) && more[|log|] == h;
    }
  }

  /** What an entry says about the past. */
  ghost predicate Told(e: Entry, log: seq<Happening>) {
    && Acquired(e.id, e.owner, e.kind) in log
    && Successes(log, e.id) == (if e.released then 1 else 0)
    && (e.released ==> ReleaseCalled(e.id, e.owner, true, true) in log)
    && (e.exitVerified ==> ExitSeen(e.id) in log)
    && (e.released && e.kind == ProcessHandle ==> ExitedThenReleased(log, e.id, e.owner))
  }

  /** The counters count the entries: what was acquired was released or is still owned, and
      every attempt released or quarantined. */
  predicate Counted(es: seq<Entry>, acquired: nat, released: nat, owned: nat, quarantined: nat, attempts: nat) {
    && acquired == |es| && released == Released(es) && quarantined == Quarantined(es)
    && acquired == released + owned && attempts == released + quarantined
  }

  /** Every entry tells the truth about the past, under an id of its own. */
  ghost predicate Consistent(es: seq<Entry>, log: seq<Happening>) {
    && Distinct(es) && (forall e | e in es :: Coherent(e) && Told(e, log))
    && (forall id: U64 | Absent(es, id) :: Successes(log, id) == 0)
  }

  predicate Absent(es: seq<Entry>, id: U64) {
    forall i | 0 <= i < |es| :: es[i].id != id
  }

  lemma Appended(es: seq<Entry>, log: seq<Happening>, acquired: nat, released: nat, owned: nat, quarantined: nat,
      attempts: nat, e: Entry)
    requires Counted(es, acquired, released, owned, quarantined, attempts) && Consistent(es, log) && Absent(es, e.id)
    requires !e.attempted && !e.released && !e.quarantined && !e.exitVerified
    ensures Counted(es + [e], acquired + 1, released, owned + 1, quarantined, attempts)
    ensures Consistent(es + [e], log + [Acquired(e.id, e.owner, e.kind)])
  {
    hide Released, Quarantined, Successes, ExitedThenReleased;
    CountsAppend(es, e);
    var more := log + [Acquired(e.id, e.owner, e.kind)];
    forall id { SuccessesAppend(log, Acquired(e.id, e.owner, e.kind), id); }
    forall x | x in es + [e] ensures Coherent(x) && Told(x, more) {
      ExitedThenReleasedMore(log, Acquired(e.id, e.owner, e.kind), x.id, x.owner);
      if x != e { assert x in es; }
    }
    forall id: U64 | Absent(es + [e], id) ensures Absent(es, id) { assert forall i | 0 <= i < |es| ::
        (es + [e])[i] == es[i]; }
  }

  /** The entry after a release attempt with this outcome. */
  function Attempted(e: Entry, good: bool): Entry {
    e.(attempted := true, released := good, quarantined := !good)
  }

  lemma Updated(es: seq<Entry>, log: seq<Happening>, acquired: nat, released: nat, owned: nat, quarantined: nat,
                attempts: nat,
                i: nat, osOk: bool, good: bool)
    requires Counted(es, acquired, released, owned, quarantined, attempts) && Consistent(es, log) && i < |es|
        && !es[i].attempted
    requires good ==> osOk && (es[i].kind == ProcessHandle ==> es[i].exitVerified)
    ensures good ==> owned > 0 && Counted(es[i := Attempted(es[i], good)], acquired, released + 1, owned - 1,
        quarantined, attempts + 1)
    ensures !good ==> Counted(es[i := Attempted(es[i], good)], acquired, released, owned, quarantined + 1, attempts + 1)
    ensures Consistent(es[i := Attempted(es[i], good)], log + [ReleaseCalled(es[i].id, es[i].owner, osOk, good)])
  {
    hide Released, Quarantined, Successes, ExitedThenReleased;
    var e := Attempted(es[i], good);
    var h := ReleaseCalled(es[i].id, es[i].owner, osOk, good);
    var more, now := es[i := e], log + [h];
    assert es[i] in es;
    CountsUpdate(es, i, e);
    forall id { SuccessesAppend(log, h, id); }
    forall j | 0 <= j < |more| ensures Coherent(more[j]) && Told(more[j], now) && more[j].id == es[j].id {
      ExitedThenReleasedMore(log, h, es[j].id, es[j].owner);
      assert es[j] in es;
    }
    forall id: U64 | Absent(more, id) ensures Absent(es, id) { assert forall j | 0 <= j < |es| ::
        more[j].id == es[j].id; }
  }

  /** Something that changed no entry. */
  lemma Futile(es: seq<Entry>, log: seq<Happening>, h: Happening)
    requires Consistent(es, log) && (h.ReleaseCalled? ==> !h.ok)
    ensures Consistent(es, log + [h])
  {
    hide Successes, ExitedThenReleased;
    forall x { SuccessesAppend(log, h, x); }
    forall e | e in es ensures Told(e, log + [h]) { ExitedThenReleasedMore(log, h, e.id, e.owner); }
  }

  predicate Releasable(e: Entry, id: U64, owner: string) {
    e.id == id && e.owner == owner && !e.attempted && (e.kind == ProcessHandle ==> e.exitVerified)
  }

  predicate Deletable(e: Entry, id: U64, owner: string) {
    e.id == id && e.owner == owner && e.released && !e.quarantined
  }

  predicate AccountedFor(e: Entry) {
    e.released && !e.quarantined && (e.kind == ProcessHandle ==> e.exitVerified)
  }

  lemma DistinctIds(es: seq<Entry>, log: seq<Happening>, i: nat)
    requires Consistent(es, log) && i < |es|
    ensures forall j | 0 <= j < |es| && j != i :: es[j].id != es[i].id
  {
    hide Successes;
  }

  predicate AllAccounted(es: seq<Entry>) {
    forall i | 0 <= i < |es| :: AccountedFor(es[i])
  }

  lemma NothingToAccount(es: seq<Entry>)
    ensures AllAccounted(es[..0])
  {
  }

  lemma AccountedNext(es: seq<Entry>, i: nat)
    requires i < |es|
    ensures AllAccounted(es[..i + 1]) <==> AllAccounted(es[..i]) && AccountedFor(es[i])
  {
    assert es[..i + 1] == es[..i] + [es[i]];
  }

  lemma ExitedIsSettled(es: seq<Entry>, id: U64)
    ensures AllAccounted(es) ==> AllAccounted(Exited(es, id))
    ensures es == [] <==> Exited(es, id) == []
  {
  }

  lemma ExitedIsCounted(es: seq<Entry>, acquired: nat, released: nat, owned: nat, quarantined: nat, attempts: nat,
      id: U64)
    requires Counted(es, acquired, released, owned, quarantined, attempts)
    ensures Counted(Exited(es, id), acquired, released, owned, quarantined, attempts)
  {
    ExitedCounts(es, id);
    hide Released, Quarantined, Exited;
  }

  /** The entries after the exit of a process was observed. */
  function ExitOf(e: Entry, id: U64): Entry {
    if e.id == id && e.kind == ProcessHandle then e.(exitVerified := true) else e
  }

  function Exited(es: seq<Entry>, id: U64): (r: seq<Entry>)
    ensures |r| == |es|
  {
    seq(|es|, i requires 0 <= i < |es| => ExitOf(es[i], id))
  }

  lemma {:induction false} ExitedCounts(es: seq<Entry>, id: U64)
    ensures Released(Exited(es, id)) == Released(es) && Quarantined(Exited(es, id)) == Quarantined(es)
  {
    if es != [] {
      ExitedCounts(es[..|es| - 1], id);
      assert Exited(es, id)[..|es| - 1] == Exited(es[..|es| - 1], id);
    }
  }

  lemma ExitedIsConsistent(es: seq<Entry>, log: seq<Happening>, id: U64)
    requires Consistent(es, log)
    ensures Consistent(Exited(es, id), log + [ExitSeen(id)])
  {
    hide Successes, ExitedThenReleased;
    forall x { SuccessesAppend(log, ExitSeen(id), x); }
    var more := Exited(es, id);
    forall j | 0 <= j < |more| ensures Coherent(more[j]) && Told(more[j], log + [ExitSeen(id)])
        && more[j].id == es[j].id {
      ExitedThenReleasedMore(log, ExitSeen(id), es[j].id, es[j].owner);
      assert es[j] in es;
    }
    forall x: U64 | Absent(more, x) ensures Absent(es, x) { assert forall j | 0 <= j < |es| :: more[j].id == es[j].id; }
  }

  class ReleaseLedger {
    var entries: seq<Entry>
    var startMs: U64
    var lastMs: U64
    var acquiredCount: nat
    var releasedCount: nat
    var stillOwned: nat
    var quarantinedCount: nat
    var releaseAttempts: nat
    var duplicateAttempts: nat
    var unownedAttempts: nat
    var forbiddenDeletes: nat
    var inFlight: nat
    var clockStarted: bool
    var stopped: bool
    var deadlineExceeded: bool
    var observationLost: bool
    var unknown: bool
    var settled: bool
    var failureCode: string
    var verdict: Verdict
    ghost var log: seq<Happening>

    constructor ()
      ensures Valid() && entries == [] && !settled && !clockStarted && verdict == NotRun
    {
      entries, startMs, lastMs, acquiredCount, releasedCount, stillOwned, quarantinedCount := [], 0, 0, 0, 0, 0, 0;
      releaseAttempts, duplicateAttempts, unownedAttempts, forbiddenDeletes, inFlight := 0, 0, 0, 0, 0;
      clockStarted, stopped, deadlineExceeded, observationLost, unknown, settled := false, false, false, false, false,
          false;
      failureCode, verdict, log := "NONE", NotRun, [];
    }


    ghost predicate Valid()
      reads this
    {
      && Counted(entries, acquiredCount, releasedCount, stillOwned, quarantinedCount, releaseAttempts)
      && Consistent(entries, log)
      && (settled <==> verdict != NotRun)
      && (verdict == Passed ==> Settled() && SettledWhile(0) in log)
      && (deadlineExceeded ==> stopped) && (observationLost ==> unknown && stopped)
      && (entries != [] ==> clockStarted) && (clockStarted ==> startMs <= lastMs)
    }

    /** What a PASS stands for: at least one entry, and each released, once and by its own
        owner, the processes after their exit was observed. */
    ghost predicate Settled()
      reads `entries
    {
      && entries != []
      && AllAccounted(entries)
    }

    method Latch(code: string, uncertain: bool)
      requires Valid()
      modifies this`unknown, this`failureCode
      ensures Valid() && unknown == (old(unknown) || uncertain)
      ensures failureCode == if old(failureCode) == "NONE" then code else old(failureCode)
    {
      hide Consistent, Counted;
      if uncertain { unknown := true; }
      if failureCode == "NONE" { failureCode := code; }
    }

    method MarkObservationLost()
      requires Valid()
      modifies this`observationLost, this`stopped, this`unknown, this`failureCode
      ensures Valid() && observationLost && stopped && unknown
    {
      hide Consistent, Counted;
      observationLost, stopped, unknown := true, true, true;
      Latch("MEASUREMENT_UNAVAILABLE", true);
    }

    method BeginWindow(start: U64) returns (ok: bool)
      requires Valid()
      modifies this`clockStarted, this`startMs, this`lastMs
      ensures Valid()
      ensures ok <==> !old(clockStarted) && !settled && !stopped && !observationLost && failureCode == "NONE"
      ensures ok ==> clockStarted && startMs == lastMs == start
      ensures !ok ==> clockStarted == old(clockStarted) && startMs == old(startMs) && lastMs == old(lastMs)
    {
      hide Consistent, Counted;
      if clockStarted || settled || stopped || observationLost || failureCode != "NONE" { return false; }
      clockStarted, startMs, lastMs := true, start, start;
      ok := true;
    }

    /** The clock only goes forward; at the deadline new work ends, owned releases do not. */
    method AdvanceClock(now: U64) returns (ok: bool)
      requires Valid()
      modifies this`lastMs, this`deadlineExceeded, this`stopped, this`unknown, this`failureCode, this`observationLost
      ensures Valid() && lastMs >= old(lastMs)
      ensures ok ==> clockStarted && !stopped && lastMs == now && 0 <= now - startMs < MAX_RELEASE_MS
    {
      hide Consistent, Counted;
      if !clockStarted || now < lastMs {
        MarkObservationLost();
        return false;
      }
      if settled || stopped || deadlineExceeded { return false; }
      lastMs := now;
      // The unsigned difference.
      if (now - startMs) % 0x1_0000_0000_0000_0000 >= MAX_RELEASE_MS {
        deadlineExceeded, stopped := true, true;
        if inFlight > 0 { unknown := true; }
        Latch("BUDGET_EXCEEDED", inFlight > 0);
        return false;
      }
      ok := true;
    }

    /** A new resource, with an id nobody else has, inside a live window only. */
    method RegisterAcquired(id: U64, owner: string, kind: ResourceKind, parent: U64) returns (ok: bool)
      requires Valid()
      modifies this`entries, this`acquiredCount, this`stillOwned, this`observationLost, this`stopped, this`unknown,
          this`failureCode, this`log
      ensures Valid()
      ensures ok <==> && old(clockStarted) && !old(observationLost) && !settled && !old(stopped) && !deadlineExceeded
                      && id != 0 && SafeId(owner) && Absent(old(entries), id)
      ensures entries == old(entries) + if ok then [Entry(id, owner, kind, parent, false, false, false, false)] else []
    {
      hide Consistent, Counted, SafeId;
      ok := false;
      if !clockStarted || observationLost {
        MarkObservationLost();
        return;
      }
      if settled || stopped || deadlineExceeded || id == 0 || !SafeId(owner) {
        Latch("OWNERSHIP_UNKNOWN", true);
        return;
      }
      for i := 0 to |entries|
        invariant forall j | 0 <= j < i :: entries[j].id != id
      {
        if entries[i].id == id {
          Latch("OWNERSHIP_UNKNOWN", true);
          return;
        }
      }
      var e := Entry(id, owner, kind, parent, false, false, false, false);
      Appended(entries, log, acquiredCount, releasedCount, stillOwned, quarantinedCount, releaseAttempts, e);
      entries, log := entries + [e], log + [Acquired(id, owner, kind)];
      acquiredCount, stillOwned := acquiredCount + 1, stillOwned + 1;
      ok := true;
    }

    method RequestStop(code: string)
      requires Valid()
      modifies this`stopped, this`failureCode
      ensures Valid() && stopped
    {
      hide Consistent, Counted;
      stopped := true;
      if failureCode == "NONE" { failureCode := code; }
    }

    method BeginSyncCall()
      requires Valid()
      modifies this`inFlight
      ensures Valid() && inFlight == old(inFlight) + 1
    {
      hide Consistent, Counted;
      inFlight := inFlight + 1;
    }

    method EndSyncCall()
      requires Valid()
      modifies this`inFlight
      ensures Valid() && inFlight == if old(inFlight) > 0 then old(inFlight) - 1 else 0
    {
      hide Consistent, Counted;
      if inFlight > 0 { inFlight := inFlight - 1; }
    }

    method ObserveProcessExit(id: U64)
      requires Valid()
      modifies this`entries, this`log
      ensures Valid() && entries == Exited(old(entries), id)
    {
      hide Consistent, Counted, Exited;
      ExitedIsConsistent(entries, log, id);
      ExitedIsCounted(entries, acquiredCount, releasedCount, stillOwned, quarantinedCount, releaseAttempts, id);
      ExitedIsSettled(entries, id);
      MarkExited(id);
      log := log + [ExitSeen(id)];
    }

    method MarkExited(id: U64)
      modifies this`entries
      ensures entries == Exited(old(entries), id)
    {
      ghost var was := entries;
      for i := 0 to |entries|
        invariant |entries| == |was| && (forall j | 0 <= j < i :: entries[j] == ExitOf(was[j], id))
        invariant forall j | i <= j < |was| :: entries[j] == was[j]
      {
        var e := entries[i];
        if e.id == id && e.kind == ProcessHandle { entries := entries[i := e.(exitVerified := true)]; }
      }
    }

    /** The one release attempt of an entry, by its own owner. A stop does not prevent it.
        A failed one, or one of a process whose exit was not observed, is never retried. */
    method ReleaseOnce(id: U64, owner: string, osOk: bool) returns (ok: bool)
      requires Valid()
      modifies this`entries, this`releasedCount, this`stillOwned, this`quarantinedCount, this`releaseAttempts,
          this`duplicateAttempts,
        this`unownedAttempts, this`unknown, this`failureCode, this`log
      ensures Valid() && (settled ==> !ok && entries == old(entries) && log == old(log))
      ensures ok <==> !settled && osOk && exists i | 0 <= i < |old(entries)| :: Releasable(old(entries)[i], id, owner)
      ensures duplicateAttempts >= old(duplicateAttempts) && unownedAttempts >= old(unownedAttempts)
    {
      hide Consistent, Counted, Successes;
      ok := false;
      if settled { return; }
      for i := 0 to |entries|
        invariant entries == old(entries) && Absent(entries[..i], id)
        invariant forall j | 0 <= j < i :: entries[j].id != id
      {
        if entries[i].id == id {
          DistinctIds(entries, log, i);
          ok := ReleaseAt(i, owner, osOk);
          return;
        }
      }
      Futile(entries, log, ReleaseCalled(id, owner, osOk, false));
      log := log + [ReleaseCalled(id, owner, osOk, false)];
      unownedAttempts := unownedAttempts + 1;
      Latch("OWNERSHIP_UNKNOWN", true);
    }

    method ReleaseAt(i: nat, owner: string, osOk: bool) returns (ok: bool)
      requires Valid() && !settled && i < |entries|
      modifies this`entries, this`releasedCount, this`stillOwned, this`quarantinedCount, this`releaseAttempts,
          this`duplicateAttempts,
        this`unownedAttempts, this`unknown, this`failureCode, this`log
      ensures Valid() && (ok <==> osOk && Releasable(old(entries)[i], old(entries)[i].id, owner))
      ensures duplicateAttempts >= old(duplicateAttempts) && unownedAttempts >= old(unownedAttempts)
    {
      hide Consistent, Counted, Successes;
      var e := entries[i];
      if e.owner == owner && !e.attempted {
        ok := Attempt(i, osOk);
        return;
      }
      Futile(entries, log, ReleaseCalled(e.id, owner, osOk, false));
      log := log + [ReleaseCalled(e.id, owner, osOk, false)];
      if e.owner != owner { unownedAttempts := unownedAttempts + 1; }
          else { duplicateAttempts := duplicateAttempts + 1; }
      Latch("OWNERSHIP_UNKNOWN", true);
      ok := false;
    }

    /** The attempt itself. */
    method Attempt(i: nat, osOk: bool) returns (ok: bool)
      requires Valid() && !settled && i < |entries| && !entries[i].attempted
      modifies this`entries, this`releasedCount, this`stillOwned, this`quarantinedCount, this`releaseAttempts,
          this`unknown,
        this`failureCode, this`log
      ensures Valid() && ok == (osOk && (old(entries)[i].kind == ProcessHandle ==> old(entries)[i].exitVerified))
    {
      hide Consistent, Counted, Successes, Attempted;
      var e := entries[i];
      ok := osOk && (e.kind == ProcessHandle ==> e.exitVerified);
      Updated(entries, log, acquiredCount, releasedCount, stillOwned, quarantinedCount, releaseAttempts, i, osOk, ok);
      entries, log := entries[i := Attempted(e, ok)], log + [ReleaseCalled(e.id, e.owner, osOk, ok)];
      releaseAttempts := releaseAttempts + 1;
      if ok {
        releasedCount := releasedCount + 1;
        if stillOwned > 0 { stillOwned := stillOwned - 1; }
        return;
      }
      quarantinedCount, unknown := quarantinedCount + 1, true;
      Latch("SETTLEMENT_UNKNOWN", true);
    }

    /** Deleting needs proof, authority and a released entry of the caller's. */
    method AttemptDelete(id: U64, owner: string, proven: bool, authorized: bool) returns (ok: bool)
      requires Valid()
      modifies this`forbiddenDeletes, this`unknown, this`failureCode
      ensures Valid() && forbiddenDeletes >= old(forbiddenDeletes)
      ensures ok <==> proven && authorized && exists i | 0 <= i < |entries| :: Deletable(entries[i], id, owner)
      ensures !ok ==> forbiddenDeletes > old(forbiddenDeletes)
    {
      hide Consistent, Counted;
      ok := false;
      if !proven || !authorized {
        forbiddenDeletes := forbiddenDeletes + 1;
        Latch(if !proven then "OWNERSHIP_UNKNOWN" else "UNAUTHORIZED_ACCESS", !proven);
        return;
      }
      for i := 0 to |entries|
        invariant forall j | 0 <= j < i :: !Deletable(entries[j], id, owner)
      {
        if Deletable(entries[i], id, owner) { return true; }
      }
      forbiddenDeletes := forbiddenDeletes + 1;
      Latch("OWNERSHIP_UNKNOWN", true);
    }

    /** The verdict, given once. */
    method Settle() returns (v: Verdict)
      requires Valid()
      modifies this`settled, this`unknown, this`verdict, this`failureCode, this`observationLost, this`stopped, this`log
      ensures Valid() && settled && v == verdict && (old(settled) ==> v == old(verdict))
      ensures !old(settled) ==> (v == Passed <==> && old(Settled()) && !old(unknown) && !old(stopped) && inFlight == 0
                                                   && old(failureCode) == "NONE"
                                                   && duplicateAttempts == unownedAttempts == forbiddenDeletes == 0)
    {
      hide Consistent, Counted, AllAccounted;
      if settled { return verdict; }
      if !clockStarted { MarkObservationLost(); }
      if entries == [] && clockStarted { Latch("ARTIFACT_INVALID", false); }
      Futile(entries, log, SettledWhile(inFlight));
      ghost var code := failureCode;
      Examine();
      log := log + [SettledWhile(inFlight)];
      Pronounce();
      v := verdict;
    }

    /** The verdict over what was examined. */
    method Pronounce()
      requires Valid() && !settled && (unknown || (AllAccounted(entries) && SettledWhile(0) in log))
      requires entries == [] ==> observationLost || failureCode != "NONE"
      modifies this`settled, this`verdict
      ensures Valid() && settled
      ensures verdict == Passed <==> && !unknown && !stopped && failureCode == "NONE"
                                     && duplicateAttempts == unownedAttempts == forbiddenDeletes == 0
    {
      hide Consistent, Counted, AllAccounted;
      verdict := if duplicateAttempts > 0 || unownedAttempts > 0 || forbiddenDeletes > 0 then Failed
                 else if unknown then Unknown
                 else if stopped || deadlineExceeded || failureCode != "NONE" then Failed
                 else Passed;
      settled := true;
    }

    /** Whatever is not accounted for makes the outcome unknown. */
    method Examine()
      requires Valid() && !settled
      modifies this`unknown
      ensures Valid()
      ensures unknown == (old(unknown) || inFlight > 0 || observationLost || !AllAccounted(entries))
    {
      hide Consistent, Counted, AllAccounted, AccountedFor;
      NothingToAccount(entries);
      for i := 0 to |entries|
        invariant Valid() && unknown == (old(unknown) || !AllAccounted(entries[..i]))
      {
        if !AccountedFor(entries[i]) { unknown := true; }
        AccountedNext(entries, i);
      }
      assert entries[..|entries|] == entries;
      NothingOpen(entries, acquiredCount, releasedCount, stillOwned, quarantinedCount, releaseAttempts);
      if inFlight > 0 || observationLost || stillOwned > 0 || quarantinedCount > 0 { unknown := true; }
    }
  }

  /** If every entry is accounted for, nothing is owned or quarantined any more. */
  lemma NothingOpen(es: seq<Entry>, acquired: nat, released: nat, owned: nat, quarantined: nat, attempts: nat)
    requires Counted(es, acquired, released, owned, quarantined, attempts)
    ensures AllAccounted(es) ==> owned == quarantined == 0
  {
    AllReleased(es);
    if AllAccounted(es) { NoneQuarantined(es); }
  }

  /** Any sequence of calls. A PASS says that no call was in flight at the settlement, and
      of every entry that exactly one release of it succeeded, its own owner's, and for a
      process after its exit was seen. */
  method Run(l: ReleaseLedger)
    requires l.Valid()
    modifies l
    ensures l.Valid() && (old(l.settled) ==> l.settled && l.verdict == old(l.verdict))
    ensures l.verdict == Passed ==>
      && l.Settled() && l.acquiredCount == l.releasedCount == l.releaseAttempts > 0 && l.quarantinedCount == 0
      && SettledWhile(0) in l.log
    ensures l.verdict == Passed ==> forall e | e in l.entries ::
      && ReleaseCalled(e.id, e.owner, true, true) in l.log && Successes(l.log, e.id) == 1
      && (e.kind == ProcessHandle ==> ExitedThenReleased(l.log, e.id, e.owner))
  {
    hide Consistent, Counted, Successes, ExitedThenReleased;
    var steps: int := *;
    for i := 0 to if steps < 0 then 0 else steps
      invariant l.Valid() && (old(l.settled) ==> l.settled && l.verdict == old(l.verdict))
    {
      Step(l);
    }
    PassedSays(l);
  }

  lemma PassedSays(l: ReleaseLedger)
    requires l.Valid()
    ensures l.verdict == Passed ==>
      && l.Settled() && l.acquiredCount == l.releasedCount == l.releaseAttempts > 0 && l.quarantinedCount == 0
      && SettledWhile(0) in l.log
    ensures l.verdict == Passed ==> forall e | e in l.entries ::
      && ReleaseCalled(e.id, e.owner, true, true) in l.log && Successes(l.log, e.id) == 1
      && (e.kind == ProcessHandle ==> ExitedThenReleased(l.log, e.id, e.owner))
  {
    hide Successes, ExitedThenReleased;
    AllReleased(l.entries);
    if l.verdict == Passed { NoneQuarantined(l.entries); }
  }

  method Step(l: ReleaseLedger)
    requires l.Valid()
    modifies l
    ensures l.Valid() && (old(l.settled) ==> l.settled && l.verdict == old(l.verdict))
  {
    hide Consistent, Counted, Successes;
    var choice: int := *;
    var id: U64, now: U64, owner, kind, a, b := *, *, *, *, *, *;
    var ok;
    if choice == 0 { ok := l.BeginWindow(now); }
    else if choice == 1 { ok := l.AdvanceClock(now); }
    else if choice == 2 { ok := l.RegisterAcquired(id, owner, kind, now); }
    else if choice == 3 { l.RequestStop(owner); }
    else if choice == 4 { l.BeginSyncCall(); }
    else if choice == 5 { l.EndSyncCall(); }
    else if choice == 6 { l.ObserveProcessExit(id); }
    else if choice == 7 { l.MarkObservationLost(); }
    else if choice == 8 { ok := l.ReleaseOnce(id, owner, a); }
    else if choice == 9 { ok := l.AttemptDelete(id, owner, a, b); }
    else { var v := l.Settle(); }
  }
}
