/** The fixed discovery files: the endpoint, which may be replaced, and the anchor and
    the installation id, which are written once. */
module DiscoveryFiles {
  import opened ObjectSeam
  import opened Leases
  import opened LeaseOperations

  const ENDPOINT := 1

  function Cap(kind: int): nat {
    if kind == 1 then 185 else if kind == 2 then 1024 else if kind == 3 then 36 else 0
  }

  method PinDiscovery(os: Os, lease: Lease, sid: Sid) returns (r: Outcome)
    requires |lease.pins| > 2 && lease.discovery.handle == Null
    modifies os`disk, os`looks, os`handles, lease`discovery
    ensures os.Still() && Keeps(old(os.handles), os.handles) && Balanced(os, lease)
  {
    hide PinCount, ReceiptCount, ReadCount, Chained, Protected;
    var h;
    r, h := os.Child(lease.pins[2].handle, "discovery", true, false, sid);
    lease.discovery := lease.discovery.(handle := h);
    if r.Good() && !h.Live? { r := Code(UNAVAILABLE); }
    if !r.Good() { return; }
    var identity;
    r, identity := os.Inspect(h);
    lease.discovery := lease.discovery.(identity := identity);
  }

  /** The discovery directory was found as it was pinned, on the volume of the owner's own
      folder; for the app it is the one of its chain. */
  ghost predicate FoundDirectory(lease: Lease, look: Look, sid: Sid)
    requires |lease.pins| > 2
    reads lease
  {
    && Found(look, lease.discovery.handle, lease.discovery.identity.id, true, sid)
    && look.info.id.volume == lease.pins[2].identity.id.volume
    && (lease.role == APP ==> |lease.pins| == 9 && look.info.id == lease.pins[7].identity.id)
  }

  /** Pins the discovery directory on first use and checks it; every failure denies. */
  method DiscoveryDirectory(os: Os, lease: Lease) returns (r: Outcome, sid: Sid)
    requires Checkable(lease)
    modifies os`disk, os`looks, os`handles, lease`denied, lease`discovery
    ensures os.Still() && Keeps(old(os.handles), os.handles) && Balanced(os, lease)
    ensures Checkable(lease) && (old(lease.denied) ==> lease.denied)
    ensures r.Good() ==> !lease.denied && !old(lease.denied)
    ensures r.Code? && !r.Good() ==> lease.denied
    ensures r.Good() ==> os.looks != [] && |lease.pins| > 2 && FoundDirectory(lease, LastLook(os.looks), sid)
  {
    hide PinCount, ReceiptCount, ReadCount, Chained, Protected, ObjectValid, Verified, Doubted, Since, Refusal;
    r, sid := Check(os, lease);
    if !r.Good() { return; }
    if lease.discovery.handle == Null { r := PinDiscovery(os, lease, sid); }
    if r.Threw? { return; }
    if r.Good() {
      var current;
      r, current := os.Inspect(lease.discovery.handle);
      ProtectedIsValid(current, true, true, true, sid);
      if r.Threw? { return; }
      if r.Good() && (|| !ObjectValid(current, sid, true, true, true)
                      || current.id != lease.discovery.identity.id
                      || current.id.volume != lease.pins[2].identity.id.volume
                      || (lease.role == APP && current.id != lease.pins[7].identity.id)) {
        r := Code(UNAVAILABLE);
      }
    }
    if !r.Good() { lease.denied := true; }
  }

  /** The local inspection: a live handle on a protected file of this volume. */
  method InspectFile(os: Os, lease: Lease, sid: Sid, h: Handle) returns (r: Outcome, info: ObjectInfo)
    modifies os`disk, os`looks
    ensures os.Still()
    ensures r.Good() ==> h.Live? && (h.id in os.handles.refers ==> info.id == os.handles.refers[h.id])
    ensures r.Good() ==> os.looks == old(os.looks) + [At(r, h, info)] && Protected(info, false, true, true, sid)
                         && info.id.volume == lease.discovery.identity.id.volume
  {
    info := NO_INFO;
    if !h.Live? { return Code(UNAVAILABLE), info; }
    r, info := os.Inspect(h);
    if r.Good() && (!ObjectValid(info, sid, false, true, true)
        || info.id.volume != lease.discovery.identity.id.volume) {
      r := Code(UNAVAILABLE);
    }
  }

  /** The local close: a failure condemns the lease. */
  method CloseHere(os: Os, lease: Lease, h: Handle) returns (closed: bool)
    modifies os`disk, os`looks, os`handles, lease`denied, lease`quarantined
    ensures os.Still() && os.handles.refers == old(os.handles.refers)
    ensures forall k: nat :: Owed(os.handles, k) == old(Owed(os.handles, k)) - Is(h, k)
    ensures if closed then lease.denied == old(lease.denied) && lease.quarantined == old(lease.quarantined)
            else lease.denied && lease.quarantined
  {
    closed := CloseOnce(os, h);
    if !closed { lease.denied, lease.quarantined := true, true; }
  }

  /** Opens the name afresh: is it still bound to the file with this identity? With
      absent, is it still unbound? The handle this takes is settled here. */
  method NameCurrent(os: Os, lease: Lease, sid: Sid, kind: int, absent: bool, identity: ObjectInfo) returns (r: Outcome)
    modifies os`disk, os`looks, os`handles, lease`denied, lease`quarantined
    ensures os.Still() && Settles(old(os.handles), os.handles)
    ensures (lease.denied == old(lease.denied) && lease.quarantined == old(lease.quarantined))
            || (!r.Good() && lease.denied && lease.quarantined)
    ensures r.Good() && os.quiet ==>
      if absent then Name.Discovery(kind) !in os.disk.names
      else Name.Discovery(kind) in os.disk.names && os.disk.names[Name.Discovery(kind)] == identity.id
  {
    var observed, after;
    r, observed := os.OpenName(lease.discovery.handle, Name.Discovery(kind), sid);
    if absent {
      if !r.Threw? { r := if r == Code(MISSING) && observed == Null then Code(OK) else Code(UNAVAILABLE); }
    } else if r.Good() {
      r, after := InspectFile(os, lease, sid, observed);
      if r.Good() && after.id != identity.id { r := Code(UNAVAILABLE); }
    }
    var closed := CloseHere(os, lease, observed);
    if !closed { r := Code(UNAVAILABLE); }
  }

  /** Looks the name up and reads its file. MISSING means it is not bound; the handle is
      left to the caller, whatever the outcome. */
  method Lookup(os: Os, lease: Lease, kind: int, publish: bool, input: Bytes)
    returns (r: Outcome, missing: bool, file: Handle, identity: ObjectInfo, bytes: Bytes)
    requires Checkable(lease)
    modifies os`disk, os`looks, os`seen, os`handles, lease`denied, lease`quarantined, lease`discovery
    ensures os.Still() && Keeps(old(os.handles), os.handles) && BalancedWith(os, lease, file)
    ensures Checkable(lease) && (old(lease.denied) ==> lease.denied) && (old(lease.quarantined) ==> lease.quarantined)
    ensures r.Good() ==> !missing && 0 < |bytes| <= Cap(kind) && !old(lease.denied)
    ensures r.Good() && publish && kind != ENDPOINT ==> bytes == input
    ensures r.Good() && os.quiet ==> Holds(os.disk, Name.Discovery(kind), bytes)
    ensures r == Code(MISSING) && missing && os.quiet && !lease.denied ==> Name.Discovery(kind) !in os.disk.names
  {
    hide PinCount, ReceiptCount, ReadCount, Chained, Protected, FoundDirectory, Cap;
    missing, file, identity, bytes := false, Null, NO_INFO, [];
    var sid;
    r, sid := DiscoveryDirectory(os, lease);
    if r.Good() { r, file := os.OpenName(lease.discovery.handle, Name.Discovery(kind), sid); }
    if r.Threw? { return; }
    missing := r == Code(MISSING);
    if missing && file != Null { r := Code(UNAVAILABLE); }
    if !r.Good() { return; }
    r, identity, bytes := Examine(os, lease, sid, file, kind, publish, input);
    if r.Good() { r := NameCurrent(os, lease, sid, kind, false, identity); }
  }

  /** Reads the open file between two inspections. A write-once file must already hold
      what would be published. */
  method Examine(os: Os, lease: Lease, sid: Sid, file: Handle, kind: int, publish: bool, input: Bytes)
    returns (r: Outcome, identity: ObjectInfo, bytes: Bytes)
    modifies os`disk, os`looks, os`seen
    ensures os.Still()
    ensures r.Good() ==> file.Live? && 0 < |bytes| <= Cap(kind) && (publish && kind != ENDPOINT ==> bytes == input)
    ensures r.Good() && file.id in os.handles.refers && os.handles.refers[file.id] in os.disk.content && os.quiet
      ==> bytes == os.disk.content[os.handles.refers[file.id]]
  {
    bytes := [];
    r, identity := InspectFile(os, lease, sid, file);
    if !r.Good() { return; }
    r, bytes := os.ReadFile(file);
    if r.Good() && (bytes == [] || |bytes| > Cap(kind)) { r := Code(DATA_CORRUPT); }
    if !r.Good() { return; }
    var after;
    r, after := InspectFile(os, lease, sid, file);
    if r.Good() && after.id != identity.id { r := Code(UNAVAILABLE); }
    if r.Good() && publish && kind != ENDPOINT && bytes != input { r := Code(DATA_CORRUPT); }
  }

  /** Checks the directory again and chooses the temporary file's name. */
  method ChooseTemporary(os: Os, lease: Lease) returns (r: Outcome, sid: Sid, name: string)
    requires Checkable(lease)
    modifies os`disk, os`looks, os`handles, lease`denied, lease`discovery, lease`runtimeId
    ensures os.Still() && Keeps(old(os.handles), os.handles) && Balanced(os, lease)
    ensures Checkable(lease) && (old(lease.denied) ==> lease.denied)
    ensures r.Good() ==> !old(lease.denied)
  {
    hide PinCount, ReceiptCount, ReadCount, Chained, Protected, Hex;
    name := "";
    var leftovers, runtime, random;
    r, sid := DiscoveryDirectory(os, lease);
    if !r.Good() { return; }
    r, leftovers := os.CountEntries(lease.discovery.handle);
    if r.Good() && leftovers >= 32 { r := Code(RESOURCE_LIMIT); }
    if !r.Good() { return; }
    r, runtime, random := os.RandomName();
    if r.Good() && (!Hex(runtime, 16) || !Hex(random, 8)) { r := Code(UNAVAILABLE); }
    if !r.Good() { return; }
    if lease.runtimeId == "" { lease.runtimeId := runtime; }
    name := "~tmp-" + lease.runtimeId + "-" + random;
  }

  /** Creates, writes and re-examines the temporary file that is about to be renamed. */
  method Compose(os: Os, lease: Lease, input: Bytes)
      returns (r: Outcome, sid: Sid, temporary: Handle, identity: ObjectInfo)
    requires Checkable(lease)
    modifies os`disk, os`looks, os`handles, lease`denied, lease`discovery, lease`runtimeId
    ensures Keeps(old(os.handles), os.handles) && BalancedWith(os, lease, temporary)
    ensures Checkable(lease) && (old(lease.denied) ==> lease.denied)
    ensures os.quiet ==> Kept(old(os.disk), os.disk)
    ensures old(lease.denied) ==> os.Still()
    ensures r.Good() ==> !old(lease.denied) && OpenOn(os.handles, temporary, identity.id)
    ensures r.Good() && os.quiet ==> Unknown(old(os.disk), identity.id)
                                     && identity.id in os.disk.content && os.disk.content[identity.id] == input
  {
    hide PinCount, ReceiptCount, ReadCount, Chained, Protected;
    temporary, identity := Null, NO_INFO;
    var name;
    r, sid, name := ChooseTemporary(os, lease);
    if !r.Good() { return; }
    r, temporary := os.TemporaryCreate(lease.discovery.handle, name, sid);
    if !r.Good() { return; }
    r, identity := FillTemporary(os, lease, sid, temporary, input);
    if r.Good() { r, sid := DiscoveryDirectory(os, lease); }
  }

  method FillTemporary(os: Os, lease: Lease, sid: Sid, temporary: Handle, input: Bytes)
      returns (r: Outcome, identity: ObjectInfo)
    requires temporary.Live? ==> temporary.id in os.handles.refers
    modifies os`disk, os`looks
    ensures temporary.Live? && os.quiet ==> Extends(old(os.disk), os.disk, os.handles.refers[temporary.id])
    ensures !temporary.Live? && os.quiet ==> os.disk == old(os.disk)
    ensures r.Good() ==> OpenOn(os.handles, temporary, identity.id)
    ensures r.Good() && os.quiet ==> identity.id in os.disk.content && os.disk.content[identity.id] == input
  {
    r, identity := InspectFile(os, lease, sid, temporary);
    if !r.Good() { return; }
    r := os.WriteFile(temporary, input);
    if r.Good() { r := os.FlushFile(temporary); }
    if !r.Good() { return; }
    var after;
    r, after := InspectFile(os, lease, sid, temporary);
    if r.Good() && after.id != identity.id { r := Code(UNAVAILABLE); }
  }

  /** The name may have been bound to a new file holding the input; nothing else moved. */
  ghost predicate MayPublish(d: Disk, e: Disk, kind: int, input: Bytes) {
    Kept(d, e) || Published(d, e, Name.Discovery(kind), input)
  }

  /** Renames the composed file over the name, closes it and looks at the result. */
  method Rename(os: Os, lease: Lease, sid: Sid, kind: int, replacing: bool, temporary: Handle, identity: ObjectInfo)
    returns (r: Outcome, file: Handle)
    requires OpenOn(os.handles, temporary, identity.id)
    modifies os`disk, os`looks, os`handles, lease`denied, lease`quarantined
    ensures Keeps(old(os.handles), os.handles)
    ensures forall k: nat :: Owed(os.handles, k) - Is(file, k) == old(Owed(os.handles, k)) - Is(temporary, k)
    ensures (old(lease.denied) ==> lease.denied) && (old(lease.quarantined) ==> lease.quarantined)
    ensures old(lease.quarantined ==> lease.denied) ==> (lease.quarantined ==> lease.denied)
    ensures os.quiet ==> os.disk == old(os.disk)
                         || (&& (replacing || Name.Discovery(kind) !in old(os.disk).names)
                             && os.disk == old(os.disk).(names :=
                                  old(os.disk).names[Name.Discovery(kind) := identity.id]))
    ensures r.Good() && os.quiet ==>
        Name.Discovery(kind) in os.disk.names
        && os.disk.names[Name.Discovery(kind)] == identity.id
  {
    hide ObjectValid;
    file := Null;
    r := os.Replace(temporary, lease.discovery.handle, Name.Discovery(kind), replacing);
    var closed := CloseHere(os, lease, temporary);
    if !closed { r := Code(UNAVAILABLE); }
    if !r.Good() { return; }
    r, file := os.OpenName(lease.discovery.handle, Name.Discovery(kind), sid);
    if !r.Good() { return; }
    var after;
    r, after := InspectFile(os, lease, sid, file);
    if r.Good() && after.id != identity.id { r := Code(UNAVAILABLE); }
  }

  /** Composes, looks at the name once more and lets go of its old file. */
  method Stage(os: Os, lease: Lease, kind: int, replacing: bool, before: ObjectInfo, previous: Handle, input: Bytes)
    returns (r: Outcome, sid: Sid, temporary: Handle, identity: ObjectInfo)
    requires Checkable(lease)
    modifies os`disk, os`looks, os`handles, lease`denied, lease`quarantined, lease`discovery, lease`runtimeId
    ensures Keeps(old(os.handles), os.handles)
    ensures forall k: nat ::
        Owed(os.handles, k) - lease.Held(k) - Is(temporary, k)
        == old(Owed(os.handles, k)) - old(lease.Held(k)) - Is(previous, k)
    ensures Checkable(lease) && (old(lease.denied) ==> lease.denied) && (old(lease.quarantined) ==> lease.quarantined)
    ensures os.quiet ==> Kept(old(os.disk), os.disk)
    ensures old(lease.denied) ==> os.Still()
    ensures r.Good() ==> !old(lease.denied) && OpenOn(os.handles, temporary, identity.id)
    ensures r.Good() && os.quiet ==> Unknown(old(os.disk), identity.id)
                                     && identity.id in os.disk.content && os.disk.content[identity.id] == input
                                     && (!replacing ==> Name.Discovery(kind) !in old(os.disk).names)
  {
    hide PinCount, ReceiptCount, ReadCount, Chained, Protected, ObjectValid;
    r, sid, temporary, identity := Compose(os, lease, input);
    if r.Good() { r := NameCurrent(os, lease, sid, kind, !replacing, before); }
    var closed := CloseHere(os, lease, previous);
    if !closed { r := Code(UNAVAILABLE); }
  }

  /** The publication proper: compose, look at the name once more, let go of its old
      file, rename. It takes over the caller's handle and hands back another. */
  method Publication(os: Os, lease: Lease, kind: int, replacing: bool, before: ObjectInfo, previous: Handle,
      input: Bytes)
    returns (r: Outcome, renaming: bool, file: Handle)
    requires Checkable(lease)
    modifies os`disk, os`looks, os`handles, lease`denied, lease`quarantined, lease`discovery, lease`runtimeId
    ensures Keeps(old(os.handles), os.handles)
    ensures forall k: nat ::
        Owed(os.handles, k) - lease.Held(k) - Is(file, k)
        == old(Owed(os.handles, k)) - old(lease.Held(k)) - Is(previous, k)
    ensures Checkable(lease) && (old(lease.denied) ==> lease.denied) && (old(lease.quarantined) ==> lease.quarantined)
    ensures r.Good() ==> !old(lease.denied)
    ensures old(lease.denied) ==> os.Still() && !renaming
    ensures r.Good() ==> renaming
    ensures os.quiet ==> MayPublish(old(os.disk), os.disk, kind, input)
    ensures os.quiet && !renaming ==> Kept(old(os.disk), os.disk)
    ensures os.quiet && !replacing && Name.Discovery(kind) in old(os.disk).names ==> Kept(old(os.disk), os.disk)
    ensures r.Good() && os.quiet ==> Published(old(os.disk), os.disk, Name.Discovery(kind), input)
  {
    hide PinCount, ReceiptCount, ReadCount, Chained, Protected, ObjectValid;
    renaming, file := false, Null;
    var sid, temporary, identity;
    r, sid, temporary, identity := Stage(os, lease, kind, replacing, before, previous, input);
    if r.Good() {
      renaming := true;
      r, file := Rename(os, lease, sid, kind, replacing, temporary, identity);
    } else {
      var dropped := CloseHere(os, lease, temporary);
      if !dropped { r := Code(UNAVAILABLE); }
    }
  }

  /** The guarded part of publish and read; the file's handle may be left open in the
      result, whatever the outcome. */
  method OperateGuarded(os: Os, lease: Lease, kind: int, publish: bool, input: Bytes)
    returns (r: Outcome, renaming: bool, file: Handle, bytes: Bytes)
    requires Checkable(lease)
    modifies os`disk, os`looks, os`seen, os`handles, lease`denied, lease`quarantined, lease`discovery, lease`runtimeId
    ensures Keeps(old(os.handles), os.handles) && BalancedWith(os, lease, file)
    ensures Checkable(lease) && (old(lease.denied) ==> lease.denied) && (old(lease.quarantined) ==> lease.quarantined)
    ensures r.Good() ==> !lease.denied && !old(lease.denied)
    ensures os.quiet ==> if publish then MayPublish(old(os.disk), os.disk, kind, input) else os.disk == old(os.disk)
    ensures os.quiet && !renaming ==> Kept(old(os.disk), os.disk)
    ensures os.quiet && kind != ENDPOINT && Name.Discovery(kind) in old(os.disk).names ==> os.disk == old(os.disk)
    ensures r.Good() && os.quiet ==> Holds(os.disk, Name.Discovery(kind), if publish then input else bytes)
    ensures r.Good() && !publish ==> 0 < |bytes| <= Cap(kind)
    ensures renaming ==> publish
    ensures r.Good() && publish && kind == ENDPOINT ==> renaming
    ensures r.Good() && publish && os.quiet ==> if renaming then Stores(os.disk, Name.Discovery(kind), input)
                                                else Name.Discovery(kind) in old(os.disk).names
  {
    hide PinCount, ReceiptCount, ReadCount, Chained, Protected;
    renaming := false;
    var missing, identity;
    r, missing, file, identity, bytes := Lookup(os, lease, kind, publish, input);
    if r.Threw? { return; }
    var create := publish && missing && r == Code(MISSING);
    var replace := publish && kind == ENDPOINT && r.Good();
    if create || replace {
      r, renaming, file := Publication(os, lease, kind, replace, identity, file, input);
    }
    var sid;
    if r.Good() { r, sid := DiscoveryDirectory(os, lease); }
  }

  /** Publishes input under the fixed name, or reads the file bound to it. Once the
      rename was entered the answer is OK or COMMIT_UNKNOWN, and the lease is denied in
      the latter case. A write-once name that is bound is never touched again. */
  method Operate(os: Os, lease: Lease, kind: int, publish: bool, input: Bytes)
    returns (status: int, bytes: Bytes, ghost renamed: bool)
    requires lease.Ok()
    modifies os`disk, os`looks, os`seen, os`handles, lease
    ensures lease.Ok() && Keeps(old(os.handles), os.handles) && Balanced(os, lease)
    ensures (old(lease.denied) ==> lease.denied) && (old(lease.quarantined) ==> lease.quarantined)
    ensures lease.receipts == old(lease.receipts) && lease.readers == old(lease.readers)
        && lease.ticket == old(lease.ticket)
    ensures renamed ==> status in {OK, COMMIT_UNKNOWN} && (status == COMMIT_UNKNOWN ==> lease.denied)
    ensures status == OK ==>
        !old(lease.denied) && (publish ==> lease.role == APP)
        && (!publish ==> 0 < |bytes| <= Cap(kind))
    ensures os.quiet ==> if publish then MayPublish(old(os.disk), os.disk, kind, input) else os.disk == old(os.disk)
    ensures os.quiet && !renamed ==> Kept(old(os.disk), os.disk)
    ensures os.quiet && kind != ENDPOINT && Name.Discovery(kind) in old(os.disk).names ==> os.disk == old(os.disk)
    ensures os.quiet && status == OK ==> Holds(os.disk, Name.Discovery(kind), if publish then input else bytes)
    ensures publish || status != OK ==> bytes == []
    ensures status == OK && publish && kind == ENDPOINT ==> renamed
    ensures status == OK && publish && os.quiet ==> if renamed then Stores(os.disk, Name.Discovery(kind), input)
                                                    else Name.Discovery(kind) in old(os.disk).names
  {
    hide PinCount, ReceiptCount, ReadCount, Chained, Protected;
    bytes, renamed := [], false;
    if publish && lease.role != APP { return INVALID_INPUT, bytes, renamed; }
    if lease.ticket != 0 { return RESOURCE_LIMIT, bytes, renamed; }
    var r, renaming, file, read := OperateGuarded(os, lease, kind, publish, input);
    status := r.Caught();
    renamed := renaming;
    var closed := CloseHere(os, lease, file);
    if !closed { status := UNAVAILABLE; }
    if renaming && status != OK { lease.denied, status := true, COMMIT_UNKNOWN; }
    if !publish && status == OK { bytes := read; }
  }
}
