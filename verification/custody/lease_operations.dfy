/** What every operation on a lease is made of: the checks before and after each
    effect, the transaction's end, and the release of everything a lease holds. */
module LeaseOperations {
  import opened ObjectSeam
  import opened Leases

  /** The books balance: handles handed out without a close attempt yet moved by exactly
      what the lease's fields moved by. */
  twostate predicate Balanced(os: Os, lease: Lease)
    reads os`handles, lease
  {
    forall k: nat :: Owed(os.handles, k) - lease.Held(k) == old(Owed(os.handles, k)) - old(lease.Held(k))
  }

  /** As Balanced, with one more handle in a local variable. */
  twostate predicate BalancedWith(os: Os, lease: Lease, h: Handle)
    reads os`handles, lease
  {
    forall k: nat :: Owed(os.handles, k) - lease.Held(k) - Is(h, k) == old(Owed(os.handles, k)) - old(lease.Held(k))
  }

  /** What the checks need of a lease. */
  ghost predicate Checkable(lease: Lease)
    reads lease
  {
    && (!lease.denied ==> |lease.pins| == lease.PinsNeeded())
    && (lease.quarantined ==> lease.denied)
  }

  /** Every handle that was opened was also given its one close attempt. */
  ghost predicate Settles(t: HandleTable, u: HandleTable) {
    Keeps(t, u) && forall k: nat :: Owed(u, k) == Owed(t, k)
  }

  // ----- what a pin must still be

  /** The object is of the kind asked for, on a fixed NTFS drive, no reparse point and, if
      it is a file, has one link; and where that is asked for, it belongs to the user and
      has exactly the one protected entry that gives the user everything. */
  ghost predicate Protected(info: ObjectInfo, directory: bool, owner: bool, dacl: bool, sid: Sid) {
    && info.id.file != 0 && info.directory == directory && info.ntfs && info.fixedDrive && !info.reparse
    && (!directory ==> info.links == 1)
    && sid != [] && (owner ==> info.owner == sid)
    && (dacl ==> && info.daclPresent && info.daclProtected
                 && info.aces == [Ace(0, if directory then 3 else 0, 0x1F01FF, sid)])
  }

  /** The object looked at is the pinned one, by volume and file index, and as protected as
      the pin asks for. */
  ghost predicate StillPinned(info: ObjectInfo, pin: Pin, sid: Sid) {
    && info.id.volume == pin.identity.id.volume && info.id.file == pin.identity.id.file
    && Protected(info, pin.identity.directory, pin.owner, pin.dacl, sid)
  }

  /** The seam was asked about h, succeeded, and found this very object, protected. */
  ghost predicate Found(look: Look, h: Handle, id: FileId, directory: bool, sid: Sid) {
    && look.At? && look.handle == h && look.outcome.Good()
    && look.info.id.volume == id.volume && look.info.id.file == id.file
    && Protected(look.info, directory, true, true, sid)
  }

  ghost function LastLook(looks: seq<Look>): Look
    requires looks != []
  {
    looks[|looks| - 1]
  }

  /** The seam was asked about this pin, succeeded, and found it unchanged. */
  ghost predicate FoundPinned(look: Look, pin: Pin, sid: Sid) {
    look.At? && look.handle == pin.handle && look.outcome.Good() && StillPinned(look.info, pin, sid)
  }

  /** One look at each pin, in order, and each found unchanged. */
  ghost predicate Confirmed(looks: seq<Look>, pins: seq<Pin>, sid: Sid) {
    |looks| == |pins| && forall i | 0 <= i < |pins| :: FoundPinned(looks[i], pins[i], sid)
  }

  /** The looks end at the first pin that was not found unchanged. */
  ghost predicate Refuted(looks: seq<Look>, pins: seq<Pin>, sid: Sid) {
    && 0 < |looks| <= |pins| && Confirmed(looks[..|looks| - 1], pins[..|looks| - 1], sid)
    && var last := looks[|looks| - 1];
       last.At? && last.handle == pins[|looks| - 1].handle && !FoundPinned(last, pins[|looks| - 1], sid)
  }

  /** The user is known and every pin was found unchanged. */
  ghost predicate Verified(looks: seq<Look>, pins: seq<Pin>) {
    looks != [] && looks[0].Who? && looks[0].outcome.Good() && Confirmed(looks[1..], pins, looks[0].sid)
  }

  /** The user is not known, or a pin was not found unchanged. */
  ghost predicate Doubted(looks: seq<Look>, pins: seq<Pin>) {
    && looks != [] && looks[0].Who?
    && if looks[0].outcome.Good() then Refuted(looks[1..], pins, looks[0].sid) else |looks| == 1
  }

  /** How a call ends after a look that it cannot go on from. */
  function Refusal(look: Look): Outcome {
    if look.outcome.Good() then Code(UNAVAILABLE) else look.outcome
  }

  /** The looks since the log was that long. */
  ghost function Since(looks: seq<Look>, n: nat): seq<Look> {
    if n <= |looks| then looks[n..] else []
  }

  /** One more pin was looked at. */
  lemma LookedFurther(before: seq<Look>, looks: seq<Look>, look: Look, n: nat, pins: seq<Pin>, sid: Sid)
    requires n <= |before| && looks == before + [look] && |before| - n < |pins|
    requires look.At? && look.handle == pins[|before| - n].handle
    requires Confirmed(Since(before, n), pins[..|before| - n], sid)
    ensures FoundPinned(look, pins[|before| - n], sid) ==> Confirmed(Since(looks, n), pins[..|before| - n + 1], sid)
    ensures !FoundPinned(look, pins[|before| - n], sid) ==> Refuted(Since(looks, n), pins, sid)
  {
    hide FoundPinned;
    var s := Since(looks, n);
    assert s == Since(before, n) + [look];
    assert s[..|s| - 1] == Since(before, n);
  }

  lemma ProtectedIsValid(info: ObjectInfo, directory: bool, owner: bool, dacl: bool, sid: Sid)
    ensures Protected(info, directory, owner, dacl, sid) <==> ObjectValid(info, sid, directory, owner, dacl)
  {
  }

  /** The check of the code asks for just that. */
  lemma PinnedIsValid(info: ObjectInfo, pin: Pin, sid: Sid)
    ensures StillPinned(info, pin, sid)
       <==> ObjectValid(info, sid, pin.identity.directory, pin.owner, pin.dacl) && info.id == pin.identity.id
  {
  }

  /** Looks at every pin until one is not what it was. */
  method InspectPins(os: Os, lease: Lease, sid: Sid) returns (r: Outcome)
    modifies os`disk, os`looks
    ensures os.Still() && os.Honest(r)
    ensures old(os.looks) <= os.looks
    ensures if r.Good() then Confirmed(Since(os.looks, |old(os.looks)|), lease.pins, sid)
            else Refuted(Since(os.looks, |old(os.looks)|), lease.pins, sid)
    ensures !r.Good() ==> os.looks != [] && r == Refusal(os.looks[|os.looks| - 1])
  {
    hide ObjectValid, StillPinned, Confirmed, Refuted;
    ghost var n := |os.looks|;
    NothingLooked(os.looks, sid);
    for i := 0 to |lease.pins|
      invariant os.Still() && old(os.looks) <= os.looks && |os.looks| == n + i
      invariant Confirmed(Since(os.looks, n), lease.pins[..i], sid)
    {
      ghost var before := os.looks;
      var pin := lease.pins[i];
      var current;
      r, current := os.Inspect(pin.handle);
      LookedFurther(before, os.looks, At(r, pin.handle, current), n, lease.pins, sid);
      PinnedIsValid(current, pin, sid);
      if !r.Good() { return; }
      if !ObjectValid(current, sid, pin.identity.directory, pin.owner, pin.dacl) || current.id != pin.identity.id {
        return Code(UNAVAILABLE);
      }
    }
    assert lease.pins[..|lease.pins|] == lease.pins;
    r := Code(OK);
  }

  lemma NothingLooked(looks: seq<Look>, sid: Sid)
    ensures Confirmed(Since(looks, |looks|), [], sid)
  {
  }

  /** Denies the lease, and lifts the denial only if every pin is still what it was: an
      exception leaves it denied, and so does any failure, for good. */
  method Check(os: Os, lease: Lease) returns (r: Outcome, sid: Sid)
    modifies os`disk, os`looks, lease`denied
    ensures os.Still() && os.Honest(r)
    ensures r.Good() ==> !lease.denied && !old(lease.denied) && !lease.quarantined
    ensures !r.Good() && (lease.quarantined ==> old(lease.denied)) ==> lease.denied
    ensures old(lease.denied) ==> lease.denied
    ensures old(os.looks) <= os.looks
    ensures var looks := Since(os.looks, |old(os.looks)|);
            if old(lease.denied) || lease.quarantined then r == Code(UNAVAILABLE) && looks == []
            else if r.Good() then Verified(looks, lease.pins)
            else Doubted(looks, lease.pins) && r == Refusal(looks[|looks| - 1])
  {
    hide Confirmed, Refuted;
    sid := [];
    if lease.denied || lease.quarantined { return Code(UNAVAILABLE), sid; }
    lease.denied := true;
    ghost var n := |os.looks|;
    r, sid := os.UserSid();
    if r.Good() { r := InspectPins(os, lease, sid); }
    assert Since(os.looks, n)[1..] == Since(os.looks, n + 1);
    if !r.Threw? { lease.denied := !r.Good(); }
  }

  /** The one close attempt of a field that may hold no handle. */
  method CloseOnce(os: Os, h: Handle) returns (ok: bool)
    modifies os`disk, os`handles
    ensures os.Still()
    ensures os.handles.refers == old(os.handles.refers)
    ensures forall k: nat :: Owed(os.handles, k) == old(Owed(os.handles, k)) - Is(h, k)
    ensures !h.Live? ==> ok
  {
    ok := true;
    if h.Live? { ok := os.Close(h); }
  }

  /** Ends the transaction: each of its two handles gets its one close attempt. */
  method Finish(os: Os, lease: Lease) returns (ok: bool)
    modifies os`disk, os`handles, lease`temporary, lease`target, lease`ticket, lease`denied, lease`quarantined
    ensures os.Still() && Balanced(os, lease) && os.handles.refers == old(os.handles.refers)
    ensures lease.temporary == Null && lease.target == Null && lease.ticket == 0
    ensures if ok then lease.denied == old(lease.denied) && lease.quarantined == old(lease.quarantined)
            else lease.denied && lease.quarantined
  {
    hide PinCount, ReceiptCount, ReadCount;
    ok := CloseOnce(os, lease.temporary);
    lease.temporary := Null;
    var closed := CloseOnce(os, lease.target);
    lease.target := Null;
    lease.ticket := 0;
    ok := ok && closed;
    if !ok { lease.denied, lease.quarantined := true, true; }
  }

  method OpenTarget(os: Os, lease: Lease, sid: Sid) returns (r: Outcome, h: Handle)
    requires lease.Directory() < |lease.pins|
    modifies os`disk, os`handles
    ensures os.Still() && os.Honest(r) && Opens(old(os.handles), os.handles, h)
    ensures r == Code(MISSING) ==> lease.TargetName() !in os.disk.names
    ensures r.Good() && h.Live? ==> lease.TargetName() in os.disk.names
                                    && OpenOn(os.handles, h, os.disk.names[lease.TargetName()])
  {
    r, h := os.OpenName(lease.pins[lease.Directory()].handle, lease.TargetName(), sid);
  }

  /** Is the fixed name still what the transaction saw: missing, or bound to the file
      with that identity? The handle this takes is settled on every path. */
  method TargetCurrent(os: Os, lease: Lease, sid: Sid) returns (r: Outcome)
    requires lease.KindFits()
    modifies os`disk, os`looks, os`handles, lease`denied, lease`quarantined
    ensures os.Still() && os.Honest(r) && Settles(old(os.handles), os.handles)
    ensures (lease.denied == old(lease.denied) && lease.quarantined == old(lease.quarantined))
            || (!r.Good() && lease.denied && lease.quarantined)
    ensures r.Good() ==> |lease.pins| == lease.PinsNeeded()
    ensures r.Good() && !lease.missing ==>
        os.looks != [] && LastLook(os.looks).At?
        && Found(LastLook(os.looks), LastLook(os.looks).handle, lease.targetIdentity.id, false, sid)
    ensures r.Good() && os.quiet ==>
      if lease.missing then lease.TargetName() !in os.disk.names
      else lease.TargetName() in os.disk.names && os.disk.names[lease.TargetName()] == lease.targetIdentity.id
  {
    if |lease.pins| != lease.PinsNeeded() { return Code(UNAVAILABLE); }
    var observed;
    r, observed := OpenTarget(os, lease, sid);
    if r == Code(MISSING) {
      r := if lease.missing then Code(OK) else Code(UNAVAILABLE);
    } else if r.Good() && observed.Live? {
      var info;
      r, info := os.Inspect(observed);
      if r.Good() && (lease.missing || !ObjectValid(info, sid, false, true, true)
          || info.id != lease.targetIdentity.id) {
        r := Code(UNAVAILABLE);
      }
    } else if r.Good() {
      r := Code(UNAVAILABLE);
    }
    // The exception path closes in its handler and rethrows; the ordinary path closes here.
    var closed := CloseOnce(os, observed);
    if !closed {
      lease.denied, lease.quarantined := true, true;
      if !r.Threw? { r := Code(UNAVAILABLE); }
    }
  }

  /** Adds one protected component below its parent; whatever handle the seam hands out
      is stored before its answer is looked at. */
  method Add(os: Os, lease: Lease, initialize: bool, parent: Handle, component: string, directory: bool,
             sid: Sid, dacl: bool, create: bool) returns (r: Outcome)
    requires lease.pins != [] && !lease.settled
    modifies os`disk, os`looks, os`handles, lease`pins
    ensures old(os.looks) <= os.looks
    ensures os.Still() && Keeps(old(os.handles), os.handles) && Balanced(os, lease)
    ensures r.Good() ==> |lease.pins| == old(|lease.pins|) + 1
    ensures |lease.pins| >= old(|lease.pins|)
    ensures r.Good() && old(Chained(lease.pins, lease.role)) && dacl == (old(|lease.pins|) >= 2)
            && directory == (old(|lease.pins|) != if lease.role == APP then 3 else 4)
        ==> Chained(lease.pins, lease.role)
  {
    hide PinCount, ReceiptCount, ReadCount, ObjectValid, SafeComponent, Chained, Confirmed, Refuted;
    if !SafeComponent(component) { return Code(INVALID_INPUT); }
    r := InspectPins(os, lease, sid);
    if !r.Good() { return; }
    var h;
    r, h := os.Child(parent, component, directory, create && initialize, sid);
    ghost var before := lease.pins;
    lease.pins := lease.pins + [Pin(h, NO_INFO, true, dacl)];
    forall k: nat { PinCountAppend(before, Pin(h, NO_INFO, true, dacl), k); }
    if !r.Good() { return; }
    if !h.Live? { return Code(UNAVAILABLE); }
    var info;
    r, info := os.Inspect(h);
    ghost var added := lease.pins;
    var last := |lease.pins| - 1;
    lease.pins := lease.pins[last := Pin(h, info, true, dacl)];
    forall k: nat { PinCountUpdate(added, last, Pin(h, info, true, dacl), k); }
    if r.Good() && (!ObjectValid(info, sid, directory, true, dacl)
        || info.id.volume != lease.pins[0].identity.id.volume) {
      r := Code(UNAVAILABLE);
    }
    if r.Good() {
      AddedIsValid(info, sid, directory, dacl);
      AddedChained(before, lease.pins, lease.role, Pin(h, info, true, dacl));
    }
  }

  lemma AddedIsValid(info: ObjectInfo, sid: Sid, directory: bool, dacl: bool)
    requires ObjectValid(info, sid, directory, true, dacl)
    ensures info.directory == directory
  {
  }

  lemma AddedChained(before: seq<Pin>, pins: seq<Pin>, role: int, p: Pin)
    requires before != [] && |pins| == |before| + 1 && pins[..|before|] == before && pins[|before|] == p && p.owner
    requires p.handle.Live? && p.identity.id.volume == pins[0].identity.id.volume
    ensures Chained(before, role) && p.dacl == (|before| >= 2)
            && p.identity.directory == (|before| != if role == APP then 3 else 4)
        ==> Chained(pins, role)
  {
    hide Chained;
    assert pins == before + [p] && pins[0] == before[0];
    if Chained(before, role) && p.dacl == (|before| >= 2)
       && p.identity.directory == (|before| != if role == APP then 3 else 4) {
      ChainedMore(before, role, p);
    }
  }

  /** No slot holds a handle or an authority any more. */
  ghost predicate Cleared(receipts: seq<Receipt>, readers: seq<Read>) {
    && (forall i | 0 <= i < |receipts| :: receipts[i].token == 0 && receipts[i].pin == Null)
    && (forall i | 0 <= i < |readers| :: readers[i].token == 0 && readers[i].pin == Null)
  }

  method ReleaseReaders(os: Os, lease: Lease) returns (ok: bool)
    modifies os`disk, os`handles, lease`readers
    ensures os.Still() && Balanced(os, lease) && os.handles.refers == old(os.handles.refers)
    ensures |lease.readers| == old(|lease.readers|) && Cleared([], lease.readers)
  {
    hide PinCount, ReceiptCount, ReadCount;
    ok := true;
    for i := 0 to |lease.readers|
      invariant os.Still() && Balanced(os, lease) && os.handles.refers == old(os.handles.refers)
      invariant |lease.readers| == old(|lease.readers|) && Cleared([], lease.readers[..i])
    {
      ghost var before := lease.readers;
      var slot := lease.readers[i];
      var closed := CloseOnce(os, slot.pin);
      if !closed { ok := false; }
      var cleared := slot.(pin := Null, token := 0, nonce := seq(|slot.nonce|, j => 0), bytes := []);
      lease.readers := lease.readers[i := cleared];
      forall k: nat { ReadCountUpdate(before, i, cleared, k); }
    }
  }

  method ReleaseReceipts(os: Os, lease: Lease) returns (ok: bool)
    modifies os`disk, os`handles, lease`receipts
    ensures os.Still() && Balanced(os, lease) && os.handles.refers == old(os.handles.refers)
    ensures |lease.receipts| == old(|lease.receipts|) && Cleared(lease.receipts, [])
  {
    hide PinCount, ReceiptCount, ReadCount;
    ok := true;
    for i := 0 to |lease.receipts|
      invariant os.Still() && Balanced(os, lease) && os.handles.refers == old(os.handles.refers)
      invariant |lease.receipts| == old(|lease.receipts|) && Cleared(lease.receipts[..i], [])
    {
      ghost var before := lease.receipts;
      var slot := lease.receipts[i];
      var closed := CloseOnce(os, slot.pin);
      if !closed { ok := false; }
      var cleared := slot.(pin := Null, token := 0);
      lease.receipts := lease.receipts[i := cleared];
      forall k: nat { ReceiptCountUpdate(before, i, cleared, k); }
    }
  }

  /** Closes the pins in reverse. A pin that fails to close keeps its value but has had
      its attempt: from here on the lease is settled. */
  method ReleasePins(os: Os, lease: Lease) returns (ok: bool)
    requires !lease.settled
    modifies os`disk, os`handles, lease`pins, lease`settled
    ensures os.Still() && Balanced(os, lease) && os.handles.refers == old(os.handles.refers)
    ensures lease.settled
  {
    hide ReceiptCount, ReadCount;
    ok := true;
    var i := |lease.pins|;
    assert lease.pins[..i] == lease.pins;
    lease.settled := true;
    while i > 0
      invariant 0 <= i <= |lease.pins| && lease.settled
      invariant os.Still() && os.handles.refers == old(os.handles.refers)
      invariant forall k: nat ::
          Owed(os.handles, k) - lease.Held(k) - PinCount(lease.pins[..i], k)
          == old(Owed(os.handles, k)) - old(lease.Held(k))
    {
      i := i - 1;
      ghost var before := lease.pins;
      var pin := lease.pins[i];
      var closed := CloseOnce(os, pin.handle);
      if !closed {
        ok := false;
      } else if pin.handle.Live? {
        lease.pins := lease.pins[i := pin.(handle := Null)];
      }
      assert before[..i + 1][..i] == before[..i] == lease.pins[..i];
    }
  }

  method ReleaseSlots(os: Os, lease: Lease) returns (ok: bool)
    modifies os`disk, os`handles, lease`readers, lease`receipts, lease`exchange, lease`discovery
    ensures os.Still() && Balanced(os, lease) && os.handles.refers == old(os.handles.refers)
    ensures |lease.receipts| == old(|lease.receipts|) && |lease.readers| == old(|lease.readers|)
    ensures Cleared(lease.receipts, lease.readers)
    ensures lease.exchange.handle == Null && lease.discovery.handle == Null
  {
    hide PinCount, ReceiptCount, ReadCount;
    var readers := ReleaseReaders(os, lease);
    var receipts := ReleaseReceipts(os, lease);
    var exchange := CloseOnce(os, lease.exchange.handle);
    lease.exchange := lease.exchange.(handle := Null);
    var discovery := CloseOnce(os, lease.discovery.handle);
    lease.discovery := lease.discovery.(handle := Null);
    ok := readers && receipts && exchange && discovery;
  }

  /** Gives every handle the lease holds its one close attempt, and withdraws every
      authority. A lease with a failed close is quarantined: its handles are never
      touched again. */
  method Release(os: Os, lease: Lease) returns (ok: bool)
    requires !lease.settled
    modifies os`disk, os`handles, lease
    ensures os.Still() && Balanced(os, lease) && os.handles.refers == old(os.handles.refers)
    ensures forall k: nat :: lease.Held(k) == 0
    ensures lease.settled && lease.denied && lease.quarantined == !ok
    ensures lease.ticket == 0 && lease.target == Null && lease.temporary == Null
    ensures |lease.receipts| == old(|lease.receipts|) && |lease.readers| == old(|lease.readers|)
    ensures Cleared(lease.receipts, lease.readers)
  {
    hide PinCount, ReceiptCount, ReadCount;
    ok := Finish(os, lease);
    var slots := ReleaseSlots(os, lease);
    var pins := ReleasePins(os, lease);
    ok := ok && slots && pins;
    lease.denied := true;
    lease.quarantined := !ok;
    forall k: nat ensures lease.Held(k) == 0 { NothingHeld([], lease.receipts, lease.readers, k); }
  }

  /** The user was asked for first, at n, and the last looks found every pin unchanged. */
  ghost predicate PinnedAtLast(looks: seq<Look>, n: nat, pins: seq<Pin>) {
    && n + |pins| < |looks| && looks[n].Who? && looks[n].outcome.Good()
    && Confirmed(looks[|looks| - |pins|..], pins, looks[n].sid)
  }

  lemma AtLast(before: seq<Look>, looks: seq<Look>, n: nat, pins: seq<Pin>, sid: Sid)
    requires n < |before| && before[n] == Who(Code(OK), sid) && before <= looks
    requires Confirmed(Since(looks, |before|), pins, sid)
    ensures PinnedAtLast(looks, n, pins)
  {
    hide FoundPinned;
  }

  /** Builds the owner's chain of pins. The lock precedes every store directory. */
  method AcquirePins(os: Os, lease: Lease, initialize: bool) returns (r: Outcome)
    requires lease.pins == [] && !lease.settled && lease.role in {APP, BRIDGE}
    modifies os`disk, os`looks, os`handles, lease`pins
    ensures os.Still() && Keeps(old(os.handles), os.handles) && Balanced(os, lease)
    ensures r.Good() ==> |lease.pins| == lease.PinsNeeded()
    ensures r.Good() ==> PinnedAtLast(os.looks, |old(os.looks)|, lease.pins) && Chained(lease.pins, lease.role)
  {
    hide Chained, PinCount, ReceiptCount, ReadCount, ObjectValid, Confirmed, Refuted, Lease.Held, PinnedAtLast;
    var sid;
    r, sid := os.UserSid();
    if r.Good() && sid == [] { r := Code(UNAVAILABLE); }
    if !r.Good() { return; }
    r := AcquireTrunk(os, lease, initialize, sid);
    if !r.Good() { return; }
    var app := lease.role == APP;
    var external := lease.pins[2].handle;
    if !app {
      r := Add(os, lease, initialize, external, "bridge", true, sid, true, true);
      if !r.Good() { return; }
    }
    r := Add(os, lease, initialize, lease.pins[|lease.pins| - 1].handle, if app then "runtime.lock"
        else "client.lock", false, sid, true, true);
    if r.Good() && app { r := AcquireStores(os, lease, initialize, external, sid); }
    if !r.Good() { return; }
    ghost var before := os.looks;
    r := InspectPins(os, lease, sid);
    if r.Good() { AtLast(before, os.looks, |old(os.looks)|, lease.pins, sid); }
  }

  /** The folders both roles share. */
  method AcquireTrunk(os: Os, lease: Lease, initialize: bool, sid: Sid) returns (r: Outcome)
    requires lease.pins == [] && !lease.settled
    modifies os`disk, os`looks, os`handles, lease`pins
    ensures old(os.looks) <= os.looks
    ensures os.Still() && Keeps(old(os.handles), os.handles) && Balanced(os, lease)
    ensures r.Good() ==> |lease.pins| == 3 && Chained(lease.pins, lease.role)
  {
    hide Chained, PinCount, ReceiptCount, ReadCount, Lease.Held;
    r := AcquireRoot(os, lease, sid);
    if !r.Good() { return; }
    var app := lease.role == APP;
    r := Add(os, lease, initialize, lease.pins[0].handle, "Shiroha", true, sid, false, app);
    if !r.Good() { return; }
    r := Add(os, lease, initialize, lease.pins[1].handle, "external", true, sid, true, app);
  }

  method AcquireRoot(os: Os, lease: Lease, sid: Sid) returns (r: Outcome)
    requires lease.pins == [] && !lease.settled
    modifies os`disk, os`looks, os`handles, lease`pins
    ensures old(os.looks) <= os.looks
    ensures os.Still() && Keeps(old(os.handles), os.handles) && Balanced(os, lease)
    ensures r.Good() ==> |lease.pins| == 1 && Chained(lease.pins, lease.role)
  {
    hide ReceiptCount, ReadCount;
    var h;
    r, h := os.OpenDirectory();
    lease.pins := [Pin(h, NO_INFO, false, false)];
    if r.Good() && !h.Live? { r := Code(UNAVAILABLE); }
    if !r.Good() { return; }
    var info;
    r, info := os.Inspect(h);
    lease.pins := [Pin(h, info, false, false)];
    if r.Good() && !ObjectValid(info, sid, true, false, false) { r := Code(UNAVAILABLE); }
  }

  method AcquireStores(os: Os, lease: Lease, initialize: bool, external: Handle, sid: Sid) returns (r: Outcome)
    requires |lease.pins| == 4 && !lease.settled
    modifies os`disk, os`looks, os`handles, lease`pins
    ensures old(os.looks) <= os.looks
    ensures os.Still() && Keeps(old(os.handles), os.handles) && Balanced(os, lease)
    ensures r.Good() ==> |lease.pins| == 9
    ensures r.Good() && lease.role == APP && old(Chained(lease.pins, lease.role)) ==> Chained(lease.pins, lease.role)
  {
    hide PinCount, ReceiptCount, ReadCount, Chained;
    r := Add(os, lease, initialize, external, "app", true, sid, true, true);
    if !r.Good() { return; }
    var app := lease.pins[4].handle;
    r := Add(os, lease, initialize, app, "trust", true, sid, true, true);
    if r.Good() { r := Add(os, lease, initialize, app, "state", true, sid, true, true); }
    if r.Good() { r := Add(os, lease, initialize, external, "discovery", true, sid, true, true); }
    if r.Good() { r := Add(os, lease, initialize, external, "exchange", true, sid, true, true); }
  }
}
