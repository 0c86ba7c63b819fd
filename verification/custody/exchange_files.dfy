/** One-shot files between the app and the bridge. A creator gets a receipt, a reader may
    get a ticket; each is one authority to ask for one deletion of that very file. */
module ExchangeFiles {
  import opened ObjectSeam
  import opened Leases
  import opened LeaseOperations

  function Cap(kind: int): nat {
    if kind == 1 then 1024 else if kind == 2 then 4096 else if kind == 3 then 256 else 0
  }

  function Magic(kind: int): Bytes {
    if kind == 1 then [0x53, 0x48, 0x52, 0x45, 0x58, 0x53, 0x55, 0x42]
    else if kind == 2 then [0x53, 0x48, 0x52, 0x45, 0x58, 0x43, 0x48, 0x41]
    else [0x53, 0x48, 0x52, 0x45, 0x58, 0x50, 0x52, 0x46]
  }

  /** The fixed header binds the file to its kind and its 16-byte identifier. */
  predicate Header(kind: int, id: Bytes, bytes: Bytes) {
    25 <= |bytes| <= Cap(kind) && bytes[..8] == Magic(kind) && bytes[8] == 1 && bytes[9..25] == id
  }

  /** Inspects h and compares: still the expected, protected file? */
  method InspectSame(os: Os, h: Handle, sid: Sid, identity: ObjectInfo) returns (r: Outcome)
    modifies os`disk, os`looks
    ensures os.Still()
    ensures r.Good() && h.Live? && h.id in os.handles.refers ==> os.handles.refers[h.id] == identity.id
    ensures |os.looks| == |old(os.looks)| + 1 && (r.Good() <==> Found(LastLook(os.looks), h, identity.id, false, sid))
  {
    var info;
    r, info := os.Inspect(h);
    if r.Good() && (!ObjectValid(info, sid, false, true, true) || info.id != identity.id) { r := Code(UNAVAILABLE); }
  }

  method PinExchange(os: Os, lease: Lease, sid: Sid) returns (r: Outcome)
    requires |lease.pins| > 2 && lease.exchange.handle == Null
    modifies os`disk, os`looks, os`handles, lease`exchange
    ensures os.Still() && Keeps(old(os.handles), os.handles) && Balanced(os, lease)
    ensures os.handles.next >= old(os.handles.next)
  {
    hide PinCount, ReceiptCount, ReadCount, Chained, Protected;
    var h;
    r, h := os.Child(lease.pins[2].handle, "exchange", true, false, sid);
    lease.exchange := lease.exchange.(handle := h);
    if r.Good() && !h.Live? { r := Code(UNAVAILABLE); }
    if !r.Good() { return; }
    var identity;
    r, identity := os.Inspect(h);
    lease.exchange := lease.exchange.(identity := identity);
  }

  /** The exchange directory was found as it was pinned, on the volume of the owner's own
      folder; for the app it is the one of its chain. */
  ghost predicate FoundDirectory(lease: Lease, look: Look, sid: Sid)
    requires |lease.pins| > 2
    reads lease
  {
    && Found(look, lease.exchange.handle, lease.exchange.identity.id, true, sid)
    && look.info.id.volume == lease.pins[2].identity.id.volume
    && (lease.role == APP ==> |lease.pins| == 9 && look.info.id == lease.pins[8].identity.id)
  }

  /** Pins the exchange directory on first use and checks it. The app must find the very
      directory it created; the bridge never creates one. */
  method ExchangeDirectory(os: Os, lease: Lease) returns (r: Outcome, sid: Sid)
    requires Checkable(lease)
    modifies os`disk, os`looks, os`handles, lease`denied, lease`exchange
    ensures os.Still() && Keeps(old(os.handles), os.handles) && Balanced(os, lease)
    ensures os.handles.next >= old(os.handles.next)
    ensures Checkable(lease) && (old(lease.denied) ==> lease.denied)
    ensures r.Good() ==> !lease.denied && !old(lease.denied)
    ensures r.Good() ==> os.looks != [] && |lease.pins| > 2 && FoundDirectory(lease, LastLook(os.looks), sid)
  {
    hide PinCount, ReceiptCount, ReadCount, Chained, Protected, ObjectValid, Verified, Doubted, Since, Refusal;
    r, sid := Check(os, lease);
    if !r.Good() { return; }
    if lease.exchange.handle == Null {
      r := PinExchange(os, lease, sid);
      if !r.Good() { return; }
    }
    var current;
    r, current := os.Inspect(lease.exchange.handle);
    ProtectedIsValid(current, true, true, true, sid);
    if r.Threw? { return; }
    if r.Good() && (|| !ObjectValid(current, sid, true, true, true)
                    || current.id != lease.exchange.identity.id
                    || current.id.volume != lease.pins[2].identity.id.volume
                    || (lease.role == APP && current.id != lease.pins[8].identity.id)) {
      r := Code(UNAVAILABLE);
    }
    if !r.Good() { lease.denied := true; }
  }

  /** Enters the cross-process exclusion and counts the directory under it. */
  method Enter(os: Os, lease: Lease, create: bool) returns (r: Outcome, sid: Sid, lock: Handle, entries: nat)
    requires Checkable(lease)
    modifies os`disk, os`looks, os`handles, lease`denied, lease`exchange
    ensures os.Still() && Keeps(old(os.handles), os.handles) && BalancedWith(os, lease, lock)
    ensures os.handles.next >= old(os.handles.next)
    ensures Checkable(lease) && (old(lease.denied) ==> lease.denied)
    ensures r.Good() ==> !lease.denied && !old(lease.denied) && entries <= 32 && (create ==> entries < 32)
  {
    hide Lease.Held, ObjectValid, PinCount, ReceiptCount, ReadCount, Chained, Protected;
    lock, entries := Null, 0;
    r, sid := ExchangeDirectory(os, lease);
    if !r.Good() { return; }
    r, lock := os.ExchangeLock(lease.exchange.identity, sid);
    if r.Good() && !lock.Live? { r := Code(UNAVAILABLE); }
    if !r.Good() { return; }
    r, sid := ExchangeDirectory(os, lease);
    if !r.Good() { return; }
    r, entries := os.CountEntries(lease.exchange.handle);
    if r.Good() && (entries > 32 || (create && entries == 32)) { r := Code(UNAVAILABLE); }
  }

  // ----- create and read

  /** The exchange file's first handle: created and written, or opened and read. */
  method OpenFile(os: Os, lease: Lease, sid: Sid, name: ExchangeName, create: bool, input: Bytes, kind: int, id: Bytes,
                  capacity: nat, ghost entries: nat)
    returns (r: Outcome, file: Handle, identity: ObjectInfo, bytes: Bytes)
    modifies os`disk, os`looks, os`seen, os`handles, os`creations
    ensures Opens(old(os.handles), os.handles, file)
    ensures os.creations == old(os.creations) + (if create then [entries] else [])
    ensures os.quiet ==> KeepsDiscovery(old(os.disk), os.disk)
    ensures r.Good() ==>
        OpenOn(os.handles, file, identity.id)
        && (!create ==> Header(kind, id, bytes) && |bytes| <= capacity)
    ensures r.Good() && os.quiet ==> (if create then Stores(os.disk, name, input) else Holds(os.disk, name, bytes))
    ensures !create && os.quiet ==> os.disk == old(os.disk)
  {
    hide ObjectValid;
    identity, bytes := NO_INFO, [];
    if create {
      r, file := os.ExchangeCreate(lease.exchange.handle, name, sid, entries);
    } else {
      r, file := os.ExchangeOpen(lease.exchange.handle, name, 1, sid);
    }
    if r.Good() && !file.Live? { r := Code(UNAVAILABLE); }
    if !r.Good() { return; }
    r, identity := os.Inspect(file);
    if r.Good() && (!ObjectValid(identity, sid, false, true, true)
        || identity.id.volume != lease.exchange.identity.id.volume) {
      r := Code(UNAVAILABLE);
    }
    if !r.Good() { return; }
    if create {
      r := os.WriteFile(file, input);
      if r.Good() { r := os.FlushFile(file); }
    } else {
      r, bytes := os.ReadFile(file);
      if r.Good() && (!Header(kind, id, bytes) || |bytes| > capacity) { r := Code(DATA_CORRUPT); }
    }
    if r.Good() { r := InspectSame(os, file, sid, identity); }
  }

  method FreeReceipt(slots: seq<Receipt>) returns (i: nat)
    ensures i <= |slots|
    ensures i < |slots| ==> slots[i].token == 0 && slots[i].pin == Null
    ensures forall j | 0 <= j < i :: slots[j].token != 0 || slots[j].pin != Null
  {
    i := 0;
    while i < |slots| && (slots[i].token != 0 || slots[i].pin != Null)
      invariant i <= |slots|
      invariant forall j | 0 <= j < i :: slots[j].token != 0 || slots[j].pin != Null
    {
      i := i + 1;
    }
  }

  method FreeReader(slots: seq<Read>) returns (i: nat)
    ensures i <= |slots|
    ensures i < |slots| ==> slots[i].token == 0 && slots[i].pin == Null
    ensures forall j | 0 <= j < i :: slots[j].token != 0 || slots[j].pin != Null
  {
    i := 0;
    while i < |slots| && (slots[i].token != 0 || slots[i].pin != Null)
      invariant i <= |slots|
      invariant forall j | 0 <= j < i :: slots[j].token != 0 || slots[j].pin != Null
    {
      i := i + 1;
    }
  }

  /** Takes the independent identity pin that outlives the first handle. */
  method PinFile(os: Os, lease: Lease, name: ExchangeName, identity: ObjectInfo, begin: bool, needed: bool)
    returns (r: Outcome, pin: Handle)
    requires Checkable(lease)
    modifies os`disk, os`looks, os`handles, lease`denied, lease`exchange
    ensures os.Still() && Keeps(old(os.handles), os.handles) && BalancedWith(os, lease, pin)
    ensures Checkable(lease) && (old(lease.denied) ==> lease.denied)
    ensures r.Good() && needed ==> pin.Live?
    ensures !needed ==> pin == Null
  {
    hide PinCount, ReceiptCount, ReadCount, Chained, Protected;
    pin := Null;
    var sid;
    r, sid := ExchangeDirectory(os, lease);
    if !r.Good() || !needed { return; }
    r, pin := os.ExchangeOpen(lease.exchange.handle, name, 2, sid);
    if r.Good() && !pin.Live? { r := Code(UNAVAILABLE); }
    if r.Good() { r := InspectSame(os, pin, sid, identity); }
    if r.Good() && begin { r, sid := ExchangeDirectory(os, lease); }
  }

  /** The guarded part of create, read and read_begin; three handles may be left open in
      its results, whatever the outcome. */
  method Guarded(os: Os, lease: Lease, name: ExchangeName, create: bool, begin: bool, input: Bytes, kind: int,
      id: Bytes, capacity: nat)
    returns (r: Outcome, lock: Handle, file: Handle, pin: Handle, identity: ObjectInfo, bytes: Bytes, nonce: Bytes)
    requires Checkable(lease)
    modifies os`disk, os`looks, os`seen, os`handles, os`creations, lease`denied, lease`exchange
    ensures Keeps(old(os.handles), os.handles)
    ensures forall k: nat :: Owed(os.handles, k) - lease.Held(k) - Is(lock, k) - Is(file, k) - Is(pin, k)
                             == old(Owed(os.handles, k)) - old(lease.Held(k))
    ensures Checkable(lease) && (old(lease.denied) ==> lease.denied)
    ensures os.quiet ==> KeepsDiscovery(old(os.disk), os.disk)
    ensures os.creations == old(os.creations) || (create && exists e | 0 <= e < 32 ::
        os.creations == old(os.creations) + [e])
    ensures r.Good() ==>
        !old(lease.denied) && (create || begin ==> pin.Live?)
        && (!create ==> Header(kind, id, bytes) && |bytes| <= capacity)
    ensures r.Good() && !create && !begin ==> pin == Null
    ensures r.Good() && os.quiet ==> (if create then Stores(os.disk, name, input) else Holds(os.disk, name, bytes))
    ensures !create && os.quiet ==> os.disk == old(os.disk)
  {
    hide PinCount, ReceiptCount, ReadCount, Chained, Protected, Header;
    lock, file, pin, identity, bytes, nonce := Null, Null, Null, NO_INFO, [], [];
    if begin {
      r, nonce := os.ExchangeNonce();
      if !r.Good() { return; }
    }
    var sid, entries;
    r, sid, lock, entries := Enter(os, lease, create);
    if !r.Good() { return; }
    r, file, identity, bytes := OpenFile(os, lease, sid, name, create, input, kind, id, capacity, entries);
    if !r.Good() { return; }
    r, pin := PinFile(os, lease, name, identity, begin, create || begin);
  }

  /** Ends the two working handles; a failure there condemns the lease and the result. */
  method EndWork(os: Os, lease: Lease, file: Handle, lock: Handle) returns (closed: bool)
    modifies os`disk, os`looks, os`handles, lease`denied, lease`quarantined
    ensures os.Still() && os.handles.refers == old(os.handles.refers)
    ensures forall k: nat :: Owed(os.handles, k) + Is(file, k) + Is(lock, k) == old(Owed(os.handles, k))
    ensures if closed then lease.denied == old(lease.denied) && lease.quarantined == old(lease.quarantined)
            else lease.denied && lease.quarantined
  {
    closed := CloseOnce(os, file);
    var unlocked := CloseOnce(os, lock);
    closed := closed && unlocked;
    if !closed { lease.denied, lease.quarantined := true, true; }
  }

  /** Runs the guarded part and ends its working handles. A pin survives only into a
      slot: on a success that grants something. */
  method Perform(os: Os, lease: Lease, name: ExchangeName, create: bool, begin: bool, input: Bytes, kind: int,
      id: Bytes, capacity: nat)
    returns (status: int, pin: Handle, identity: ObjectInfo, bytes: Bytes, nonce: Bytes)
    requires lease.Ok()
    modifies os`disk, os`looks, os`seen, os`handles, os`creations, lease`denied, lease`quarantined, lease`exchange
    ensures Keeps(old(os.handles), os.handles) && BalancedWith(os, lease, pin) && lease.Ok()
    ensures (old(lease.denied) ==> lease.denied) && (old(lease.quarantined) ==> lease.quarantined)
    ensures os.quiet ==> KeepsDiscovery(old(os.disk), os.disk)
    ensures os.creations == old(os.creations) || (create && exists e | 0 <= e < 32 ::
        os.creations == old(os.creations) + [e])
    ensures if status == OK && (create || begin) then pin.Live? else pin == Null
    ensures status == OK ==> !old(lease.denied) && (!create ==> Header(kind, id, bytes) && |bytes| <= capacity)
    ensures status == OK && os.quiet ==> (if create then Stores(os.disk, name, input) else Holds(os.disk, name, bytes))
    ensures !create && os.quiet ==> os.disk == old(os.disk)
  {
    hide PinCount, ReceiptCount, ReadCount, Chained, Protected, Header;
    var r, lock, file, held;
    r, lock, file, held, identity, bytes, nonce := Guarded(os, lease, name, create, begin, input, kind, id, capacity);
    status := r.Caught();
    var closed := EndWork(os, lease, file, lock);
    if !closed { status := UNAVAILABLE; }
    pin := held;
    if status != OK || !(create || begin) {
      pin := Null;
      var unpinned := CloseOnce(os, held);
      if !unpinned { lease.denied, lease.quarantined, status := true, true, UNAVAILABLE; }
    }
  }

  /** A new authority in slot i of the receipts. */
  ghost predicate NewReceipt(before: seq<Receipt>, after: seq<Receipt>, i: nat, serial: nat) {
    && i < |before| && before[i].token == 0 && before[i].pin == Null
    && |after| == |before| && after == before[i := after[i]]
    && after[i].token == serial && after[i].pin.Live?
  }

  /** A new authority in slot i of the readers. */
  ghost predicate NewReader(before: seq<Read>, after: seq<Read>, i: nat, serial: nat, bytes: Bytes) {
    && i < |before| && before[i].token == 0 && before[i].pin == Null
    && |after| == |before| && after == before[i := after[i]]
    && after[i].token == serial && after[i].pin.Live? && after[i].bytes == bytes
  }

  /** What create, read and read_begin have in common of their outcome. */
  twostate predicate Operated(os: Os, lease: Lease)
    reads os, lease
  {
    && lease.Ok() && Keeps(old(os.handles), os.handles) && Balanced(os, lease)
    && (old(lease.denied) ==> lease.denied) && (old(lease.quarantined) ==> lease.quarantined)
    && (os.quiet ==> KeepsDiscovery(old(os.disk), os.disk))
    && os.deletes == old(os.deletes)
    && lease.ticket == old(lease.ticket)
    && (os.creations == old(os.creations) || exists e | 0 <= e < 32 :: os.creations == old(os.creations) + [e])
  }

  /** Creates, writes and pins a new file; its receipt is the next serial. */
  method Create(os: Os, lease: Lease, kind: int, id: Bytes, input: Bytes, nextTicket: nat)
    returns (status: int, receipt: nat, ghost slot: nat)
    requires lease.Ok() && nextTicket > 0 && |id| == 16
    modifies os`disk, os`looks, os`seen, os`handles, os`creations, lease
    ensures Operated(os, lease) && lease.readers == old(lease.readers)
    ensures if status == OK then receipt == nextTicket
        && NewReceipt(old(lease.receipts), lease.receipts, slot, receipt) && !old(lease.denied)
            else receipt == 0 && lease.receipts == old(lease.receipts)
    ensures status == OK && os.quiet ==> Stores(os.disk, Name.Exchange(kind, id), input)
  {
    hide Stores, ObjectValid, PinCount, ReceiptCount, ReadCount, Chained, Protected, Header;
    receipt, slot := 0, 0;
    if lease.role != (if kind == 2 then APP else BRIDGE) { return INVALID_INPUT, receipt, slot; }
    var i := FreeReceipt(lease.receipts);
    if i == |lease.receipts| || nextTicket > INT64_MAX { return RESOURCE_LIMIT, receipt, slot; }
    var name := Name.Exchange(kind, id);
    var pin, identity, bytes, nonce;
    status, pin, identity, bytes, nonce := Perform(os, lease, name, true, false, input, kind, id, 0);
    if status == OK {
      ghost var before := lease.receipts;
      lease.receipts := lease.receipts[i := Receipt(nextTicket, pin, identity, name)];
      forall k: nat { ReceiptCountUpdate(before, i, Receipt(nextTicket, pin, identity, name), k); }
      receipt, slot := nextTicket, i;
    }
  }

  /** Reads the file; with begin, also pins it and grants the reader a ticket on exactly
      the bytes handed out. */
  method Reading(os: Os, lease: Lease, kind: int, id: Bytes, capacity: nat, begin: bool, nextTicket: nat)
    returns (status: int, bytes: Bytes, ticket: nat, nonce: Bytes, ghost slot: nat)
    requires lease.Ok() && nextTicket > 0 && |id| == 16
    modifies os`disk, os`looks, os`seen, os`handles, os`creations, lease
    ensures Operated(os, lease) && lease.receipts == old(lease.receipts)
    ensures os.creations == old(os.creations)
    ensures if status == OK then Header(kind, id, bytes) && |bytes| <= capacity && !old(lease.denied) else bytes == []
    ensures if status == OK && begin then ticket == nextTicket
        && NewReader(old(lease.readers), lease.readers, slot, ticket, bytes)
        && lease.readers[slot].nonce == nonce
            else ticket == 0 && lease.readers == old(lease.readers)
    ensures status == OK && os.quiet ==> Holds(os.disk, Name.Exchange(kind, id), bytes)
    ensures os.quiet ==> os.disk == old(os.disk)
  {
    hide PinCount, ReceiptCount, ReadCount, Chained, Protected, Header;
    bytes, ticket, nonce, slot := [], 0, [], 0;
    if lease.role == (if kind == 2 then APP else BRIDGE) { return INVALID_INPUT, bytes, ticket, nonce, slot; }
    var i := 0;
    if begin {
      i := FreeReader(lease.readers);
      if i == |lease.readers| || nextTicket > INT64_MAX { return RESOURCE_LIMIT, bytes, ticket, nonce, slot; }
    }
    var name := Name.Exchange(kind, id);
    var pin, identity, read, random;
    status, pin, identity, read, random := Perform(os, lease, name, false, begin, [], kind, id, capacity);
    if status == OK && begin {
      ghost var before := lease.readers;
      var entry := Read(nextTicket, pin, identity, name, random, read, kind);
      lease.readers := lease.readers[i := entry];
      forall k: nat { ReadCountUpdate(before, i, entry, k); }
      ticket, nonce, slot := nextTicket, random, i;
    }
    if status == OK { bytes := read; }
  }

  // ----- the one use of an authority

  /** What a delete request must have read before: nothing, or exactly these bytes. */
  datatype Needs = AnyContent | Exactly(bytes: Bytes)

  /** At most one delete request was made: on this serial, through a handle that is new
      and open on the pinned file, after the needed bytes were read through it. */
  twostate predicate Requested(os: Os, serial: nat, file: FileId, needs: Needs)
    reads os
  {
    os.deletes == old(os.deletes)
    || exists h: Handle, seen ::
         && os.deletes == old(os.deletes) + [DeleteRequest(serial, h, seen)]
         && OpenOn(os.handles, h, file) && h.id >= old(os.handles.next)
         && (needs.Exactly? ==> seen == needs.bytes)
  }

  /** Ends an authority: its working handles and the pin behind it get their attempts. */
  method EndAuthority(os: Os, lease: Lease, file: Handle, pin: Handle, lock: Handle) returns (closed: bool)
    modifies os`disk, os`looks, os`handles, lease`denied, lease`quarantined
    ensures os.Still() && os.handles.refers == old(os.handles.refers)
    ensures forall k: nat :: Owed(os.handles, k) + Is(file, k) + Is(pin, k) + Is(lock, k) == old(Owed(os.handles, k))
    ensures if closed then lease.denied == old(lease.denied) && lease.quarantined == old(lease.quarantined)
            else lease.denied && lease.quarantined
  {
    closed := CloseOnce(os, file);
    var unpinned := CloseOnce(os, pin);
    var unlocked := CloseOnce(os, lock);
    closed := closed && unpinned && unlocked;
    if !closed { lease.denied, lease.quarantined := true, true; }
  }

  /** Checks the directory, takes the name's lock and looks at the pin once more. */
  method LockName(os: Os, lease: Lease, slot: Receipt) returns (r: Outcome, sid: Sid, lock: Handle)
    requires Checkable(lease)
    modifies os`disk, os`looks, os`handles, lease`denied, lease`exchange
    ensures os.Still() && Keeps(old(os.handles), os.handles) && os.handles.next >= old(os.handles.next)
    ensures BalancedWith(os, lease, lock)
    ensures Checkable(lease) && (old(lease.denied) ==> lease.denied)
    ensures r.Good() ==> !old(lease.denied)
  {
    hide PinCount, ReceiptCount, ReadCount, Chained, Protected, ObjectValid;
    lock := Null;
    r, sid := ExchangeDirectory(os, lease);
    if !r.Good() { return; }
    r, lock := os.ExchangeLock(lease.exchange.identity, sid);
    if r.Good() && !lock.Live? { r := Code(UNAVAILABLE); }
    if r.Good() { r := InspectSame(os, slot.pin, sid, slot.identity); }
  }

  method CleanupGuarded(os: Os, lease: Lease, slot: Receipt, ghost serial: nat)
    returns (r: Outcome, lock: Handle, file: Handle)
    requires Checkable(lease)
    modifies os`disk, os`looks, os`handles, os`deletes, lease`denied, lease`exchange
    ensures Keeps(old(os.handles), os.handles)
    ensures forall k: nat ::
        Owed(os.handles, k) - lease.Held(k) - Is(lock, k) - Is(file, k)
        == old(Owed(os.handles, k)) - old(lease.Held(k))
    ensures Checkable(lease) && (old(lease.denied) ==> lease.denied)
    ensures Requested(os, serial, slot.identity.id, AnyContent)
    ensures os.deletes != old(os.deletes) ==> !old(lease.denied)
    ensures os.quiet ==> KeepsDiscovery(old(os.disk), os.disk)
    ensures r.Good() ==> slot.name !in os.disk.names
  {
    hide PinCount, ReceiptCount, ReadCount, Chained, Protected, ObjectValid;
    file := Null;
    var sid;
    r, sid, lock := LockName(os, lease, slot);
    if !r.Good() { return; }
    r, file := os.ExchangeOpen(lease.exchange.handle, slot.name, 3, sid);
    if r.Good() && !file.Live? { r := Code(UNAVAILABLE); }
    if r.Good() { r := InspectSame(os, file, sid, slot.identity); }
    if !r.Good() { return; }
    r, sid := ExchangeDirectory(os, lease);
    if r.Good() { r := os.ExchangeDelete(file, slot.name, serial); }
  }

  /** Retires the receipt in slot i and tries the deletion. */
  method SpendReceipt(os: Os, lease: Lease, i: nat, receipt: nat) returns (status: int)
    requires lease.Ok() && i < SLOTS && lease.receipts[i].token == receipt
    modifies os`disk, os`looks, os`handles, os`deletes, lease`denied, lease`quarantined, lease`exchange, lease`receipts
    ensures lease.Ok() && Keeps(old(os.handles), os.handles) && Balanced(os, lease)
    ensures (old(lease.denied) ==> lease.denied) && (old(lease.quarantined) ==> lease.quarantined)
    ensures os.quiet ==> KeepsDiscovery(old(os.disk), os.disk)
    ensures lease.receipts == old(lease.receipts)[i := old(lease.receipts)[i].(token := 0, pin := Null)]
    ensures Requested(os, receipt, old(lease.receipts)[i].identity.id, AnyContent)
    ensures os.deletes != old(os.deletes) ==> !old(lease.denied)
    ensures status == OK && os.quiet ==> old(lease.receipts)[i].name !in os.disk.names
  {
    hide ObjectValid, PinCount, ReceiptCount, ReadCount, Chained, KeepsDiscovery;
    ghost var before := lease.receipts;
    var entry := lease.receipts[i].(token := 0);
    lease.receipts := lease.receipts[i := entry];
    forall k: nat { ReceiptCountUpdate(before, i, entry, k); }
    ghost var spent := lease.receipts;
    var r, lock, file := CleanupGuarded(os, lease, entry, receipt);
    status := if r.Threw? then UNAVAILABLE else r.code;
    var closed := EndAuthority(os, lease, file, entry.pin, lock);
    lease.receipts := lease.receipts[i := entry.(pin := Null)];
    forall k: nat { ReceiptCountUpdate(spent, i, entry.(pin := Null), k); }
    if !closed { status := UNAVAILABLE; }
  }

  /** The creator's one attempt to delete what it created. The receipt is spent before
      anything else, including on every failure. */
  method Cleanup(os: Os, lease: Lease, receipt: nat) returns (status: int, ghost slot: nat)
    requires lease.Ok() && receipt != 0
    modifies os`disk, os`looks, os`handles, os`deletes, lease
    ensures lease.Ok() && Keeps(old(os.handles), os.handles) && Balanced(os, lease)
    ensures (old(lease.denied) ==> lease.denied) && (old(lease.quarantined) ==> lease.quarantined)
    ensures lease.readers == old(lease.readers) && lease.ticket == old(lease.ticket)
    ensures os.quiet ==> KeepsDiscovery(old(os.disk), os.disk)
    ensures os.creations == old(os.creations)
    ensures slot <= SLOTS
    ensures slot == SLOTS ==>
        status == INVALID_INPUT && os.deletes == old(os.deletes)
        && lease.receipts == old(lease.receipts)
        && forall i | 0 <= i < SLOTS :: old(lease.receipts)[i].token != receipt
    ensures slot < SLOTS ==> && old(lease.receipts)[slot].token == receipt
                             && lease.receipts == old(lease.receipts)[slot := old(lease.receipts)[slot].(token := 0,
                                 pin := Null)]
                             && Requested(os, receipt, old(lease.receipts)[slot].identity.id, AnyContent)
                             && (os.deletes != old(os.deletes) ==> !old(lease.denied))
                             && (status == OK && os.quiet ==> old(lease.receipts)[slot].name !in os.disk.names)
  {
    hide PinCount, ReceiptCount, ReadCount, Chained, Protected;
    var i := 0;
    while i < SLOTS && lease.receipts[i].token != receipt
      invariant i <= SLOTS && forall j | 0 <= j < i :: lease.receipts[j].token != receipt
    {
      i := i + 1;
    }
    slot := i;
    if i == SLOTS { return INVALID_INPUT, slot; }
    status := SpendReceipt(os, lease, i, receipt);
  }

  /** Opens the file once more and compares identity and bytes with what was handed out. */
  method Reexamine(os: Os, lease: Lease, slot: Read, sid: Sid) returns (r: Outcome, file: Handle)
    modifies os`disk, os`looks, os`seen, os`handles
    ensures os.Still() && Opens(old(os.handles), os.handles, file)
    ensures r.Good() ==> OpenOn(os.handles, file, slot.identity.id)
    ensures r.Good() ==> os.LastRead(file) == slot.bytes
  {
    file := Null;
    r := InspectSame(os, slot.pin, sid, slot.identity);
    if !r.Good() { return; }
    r, file := os.ExchangeOpen(lease.exchange.handle, slot.name, 4, sid);
    if r.Good() && !file.Live? { r := Code(UNAVAILABLE); }
    if r.Good() { r := InspectSame(os, file, sid, slot.identity); }
    if !r.Good() { return; }
    var bytes;
    r, bytes := os.ReadFile(file);
    if r.Good() && bytes != slot.bytes { r := Code(DATA_CORRUPT); }
    if r.Good() { r := InspectSame(os, file, sid, slot.identity); }
    if r.Good() { r := InspectSame(os, slot.pin, sid, slot.identity); }
  }

  method ConsumeGuarded(os: Os, lease: Lease, slot: Read, ghost serial: nat)
    returns (r: Outcome, lock: Handle, file: Handle, entered: bool)
    requires Checkable(lease)
    modifies os`disk, os`looks, os`seen, os`handles, os`deletes, lease`denied, lease`exchange
    ensures Keeps(old(os.handles), os.handles)
    ensures forall k: nat ::
        Owed(os.handles, k) - lease.Held(k) - Is(lock, k) - Is(file, k)
        == old(Owed(os.handles, k)) - old(lease.Held(k))
    ensures Checkable(lease) && (old(lease.denied) ==> lease.denied)
    ensures Requested(os, serial, slot.identity.id, Exactly(slot.bytes))
    ensures (entered <==> os.deletes != old(os.deletes)) && (entered ==> !old(lease.denied))
    ensures os.quiet ==> KeepsDiscovery(old(os.disk), os.disk)
    ensures r.Good() ==> slot.name !in os.disk.names
  {
    hide PinCount, ReceiptCount, ReadCount, Chained, Protected;
    file, entered := Null, false;
    var sid, entries;
    r, sid, lock, entries := Enter(os, lease, false);
    if !r.Good() { return; }
    r, file := Reexamine(os, lease, slot, sid);
    if !r.Good() { return; }
    r, sid := ExchangeDirectory(os, lease);
    if r.Good() {
      entered := true;
      r := os.ExchangeDelete(file, slot.name, serial);
    }
  }

  /** The deletion, if asked for, and the end of the retired ticket's pin. */
  method UseTicket(os: Os, lease: Lease, entry: Read, serial: nat, consume: bool) returns (status: int)
    requires lease.Ok()
    modifies os`disk, os`looks, os`seen, os`handles, os`deletes, lease`denied, lease`quarantined, lease`exchange
    ensures lease.Ok() && Keeps(old(os.handles), os.handles)
    ensures forall k: nat ::
        Owed(os.handles, k) - lease.Held(k) + Is(entry.pin, k)
        == old(Owed(os.handles, k)) - old(lease.Held(k))
    ensures (old(lease.denied) ==> lease.denied) && (old(lease.quarantined) ==> lease.quarantined)
    ensures os.quiet ==> KeepsDiscovery(old(os.disk), os.disk)
    ensures Requested(os, serial, entry.identity.id, Exactly(entry.bytes))
    ensures os.deletes != old(os.deletes) ==> consume && !old(lease.denied)
    ensures status == OK && consume && os.quiet ==> entry.name !in os.disk.names
  {
    hide PinCount, ReceiptCount, ReadCount, Chained, Protected;
    var r, lock, file, entered := Code(OK), Null, Null, false;
    if consume { r, lock, file, entered := ConsumeGuarded(os, lease, entry, serial); }
    status := if r.Code? then r.code else if entered then COMMIT_UNKNOWN else UNAVAILABLE;
    var closed := EndAuthority(os, lease, file, entry.pin, lock);
    if !closed { status := if entered then COMMIT_UNKNOWN else UNAVAILABLE; }
  }

  /** Retires the ticket in slot i and, if it is consumed, tries the deletion. */
  method Spend(os: Os, lease: Lease, i: nat, serial: nat, consume: bool) returns (status: int)
    requires lease.Ok() && i < SLOTS
    modifies os`disk, os`looks, os`seen, os`handles, os`deletes, lease`denied, lease`quarantined, lease`exchange,
        lease`readers
    ensures lease.Ok() && Keeps(old(os.handles), os.handles) && Balanced(os, lease)
    ensures (old(lease.denied) ==> lease.denied) && (old(lease.quarantined) ==> lease.quarantined)
    ensures os.quiet ==> KeepsDiscovery(old(os.disk), os.disk)
    ensures |lease.readers| == SLOTS && lease.readers == old(lease.readers)[i := lease.readers[i]]
    ensures lease.readers[i].token == 0 && lease.readers[i].pin == Null
    ensures Requested(os, serial, old(lease.readers)[i].identity.id, Exactly(old(lease.readers)[i].bytes))
    ensures os.deletes != old(os.deletes) ==> consume && !old(lease.denied)
    ensures status == COMMIT_UNKNOWN ==> lease.denied
    ensures status == OK && consume && os.quiet ==> old(lease.readers)[i].name !in os.disk.names
  {
    hide PinCount, ReceiptCount, ReadCount, Chained, Protected;
    ghost var before := lease.readers;
    var entry := lease.readers[i];
    var retired := entry.(token := 0, nonce := seq(|entry.nonce|, j => 0));
    lease.readers := lease.readers[i := retired];
    forall k: nat { ReadCountUpdate(before, i, retired, k); }
    ghost var spent := lease.readers;
    status := UseTicket(os, lease, retired, serial, consume);
    lease.readers := lease.readers[i := retired.(pin := Null, bytes := [])];
    forall k: nat { ReadCountUpdate(spent, i, retired.(pin := Null, bytes := []), k); }
    if status == COMMIT_UNKNOWN { lease.denied := true; }
  }

  /** The reader's one use of its ticket: the file is deleted if it still is the one with
      the bytes handed out, or released. Serial and nonce are retired before anything
      else; an unknown deletion denies the lease for good. */
  method Settle(os: Os, lease: Lease, serial: nat, nonce: Bytes, consume: bool) returns (status: int, ghost slot: nat)
    requires lease.Ok() && serial != 0
    modifies os`disk, os`looks, os`seen, os`handles, os`deletes, lease
    ensures lease.Ok() && Keeps(old(os.handles), os.handles) && Balanced(os, lease)
    ensures (old(lease.denied) ==> lease.denied) && (old(lease.quarantined) ==> lease.quarantined)
    ensures lease.receipts == old(lease.receipts) && lease.ticket == old(lease.ticket)
    ensures os.quiet ==> KeepsDiscovery(old(os.disk), os.disk)
    ensures os.creations == old(os.creations)
    ensures slot <= SLOTS
    ensures slot == SLOTS ==>
        status in {INVALID_INPUT, UNAVAILABLE} && os.deletes == old(os.deletes)
        && lease.readers == old(lease.readers)
    ensures slot == SLOTS && !old(lease.quarantined) ==>
      || (forall j | 0 <= j < SLOTS :: old(lease.readers)[j].token != serial)
      || (exists j | 0 <= j < SLOTS :: old(lease.readers)[j].token == serial && old(lease.readers)[j].nonce != nonce)
    ensures slot < SLOTS ==> !old(lease.quarantined)
    ensures slot < SLOTS ==> && old(lease.readers)[slot].token == serial && old(lease.readers)[slot].nonce == nonce
                             && lease.readers == old(lease.readers)[slot := lease.readers[slot]]
                             && lease.readers[slot].token == 0 && lease.readers[slot].pin == Null
                             && Requested(os, serial, old(lease.readers)[slot].identity.id,
                                 Exactly(old(lease.readers)[slot].bytes))
                             && (os.deletes != old(os.deletes) ==> consume && !old(lease.denied))
                             && (status == OK && consume && os.quiet ==>
                                 old(lease.readers)[slot].name !in os.disk.names)
    ensures status == COMMIT_UNKNOWN ==> lease.denied
  {
    hide PinCount, ReceiptCount, ReadCount, Chained, Protected;
    slot := SLOTS;
    if lease.quarantined { return UNAVAILABLE, slot; }
    var i := 0;
    while i < SLOTS && lease.readers[i].token != serial
      invariant i <= SLOTS && forall j | 0 <= j < i :: lease.readers[j].token != serial
    {
      i := i + 1;
    }
    if i == SLOTS || lease.readers[i].nonce != nonce { return INVALID_INPUT, slot; }
    slot := i;
    status := Spend(os, lease, i, serial, consume);
  }
}
