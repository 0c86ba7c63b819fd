/** The replace-by-rename transaction on the association file and the credentials:
    begin reads the fixed name and grants a ticket, commit writes a new file beside it and
    renames it over the name, abort gives the ticket back. */
module AssociationFiles {
  import opened ObjectSeam
  import opened Leases
  import opened LeaseOperations

  function Zeros(n: nat): Bytes { seq(n, i => 0) }

  // ----- begin

  /** Opens and reads the fixed name. */
  method ReadTarget(os: Os, lease: Lease, sid: Sid, capacity: nat) returns (r: Outcome, bytes: Bytes)
    requires lease.target == Null && lease.KindFits() && |lease.pins| == lease.PinsNeeded()
    modifies os`disk, os`looks, os`seen, os`handles, lease`target, lease`missing, lease`targetIdentity
    ensures os.Still() && Keeps(old(os.handles), os.handles) && Balanced(os, lease)
    ensures r.Good() ==> 0 < |bytes| <= capacity && |bytes| <= MAX_BYTES && !lease.missing
    ensures r.Good() && os.quiet ==> Holds(os.disk, lease.TargetName(), bytes)
  {
    hide PinCount, ReceiptCount, ReadCount, Chained, Protected, ObjectValid;
    bytes := [];
    r, lease.target := OpenTarget(os, lease, sid);
    if r.Threw? { return; }
    lease.missing := r == Code(MISSING);
    if lease.missing && lease.target != Null { r := Code(UNAVAILABLE); }
    if !r.Good() { return; }
    if !lease.target.Live? { return Code(UNAVAILABLE), bytes; }
    r, lease.targetIdentity := os.Inspect(lease.target);
    if r.Good() && (!ObjectValid(lease.targetIdentity, sid, false, true, true)
                    || lease.targetIdentity.id.volume != lease.pins[lease.Directory()].identity.id.volume) {
      r := Code(UNAVAILABLE);
    }
    if !r.Good() { return; }
    r, bytes := os.ReadFile(lease.target);
    if r.Good() && (bytes == [] || |bytes| > MAX_BYTES) { r := Code(DATA_CORRUPT); }
    if r.Good() && |bytes| > capacity { r := Code(RESOURCE_LIMIT); }
  }

  /** The guarded part of begin: read, then make sure nothing moved meanwhile. The
      result is the status begin reports if and only if a ticket is due. */
  method BeginGuarded(os: Os, lease: Lease, capacity: nat) returns (r: Outcome, due: bool, bytes: Bytes)
    requires lease.Ok() && lease.ticket == 0 && lease.KindFits()
    modifies os`disk, os`looks, os`seen, os`handles, lease`target, lease`missing, lease`targetIdentity, lease`denied,
        lease`quarantined
    ensures os.Still() && Keeps(old(os.handles), os.handles) && Balanced(os, lease)
    ensures if due then r in {Code(OK), Code(MISSING)} && !lease.denied else !r.Good()
    ensures old(lease.denied) ==> lease.denied
    ensures (lease.quarantined ==> lease.denied) && (old(lease.quarantined) ==> lease.quarantined)
    ensures |bytes| <= capacity
    ensures due && r.Good() ==> 0 < |bytes|
    ensures due && r.Good() && os.quiet ==> Holds(os.disk, lease.TargetName(), bytes)
    ensures due && !r.Good() ==> bytes == []
    ensures due && lease.missing && os.quiet ==> lease.TargetName() !in os.disk.names
  {
    hide PinCount, ReceiptCount, ReadCount, Verified, Doubted, Since, Refusal, Chained;
    bytes, due := [], false;
    var sid;
    r, sid := Check(os, lease);
    if r.Good() && |lease.pins| != lease.PinsNeeded() { r := Code(UNAVAILABLE); }
    if !r.Good() { return; }
    var read: Outcome;
    read, bytes := ReadTarget(os, lease, sid, capacity);
    if !read.Good() { bytes := []; }
    r := read;
    if !read.Good() && read != Code(MISSING) { return; }
    r, sid := Check(os, lease);
    if r.Good() { r := TargetCurrent(os, lease, sid); }
    if r.Good() { r, due := read, true; }
  }

  /** Reads the fixed name into output and grants the ticket, or leaves output zeroed,
      grants nothing and ends what it opened. */
  method Begin(os: Os, lease: Lease, kind: int, capacity: nat, nextTicket: nat)
    returns (status: int, output: Bytes, written: nat, ticket: nat)
    requires lease.Ok() && nextTicket > 0
    modifies os`disk, os`looks, os`seen, os`handles, lease
    ensures lease.Ok() && os.Still() && Keeps(old(os.handles), os.handles) && Balanced(os, lease)
    ensures (old(lease.denied) ==> lease.denied) && (old(lease.quarantined) ==> lease.quarantined)
    ensures lease.receipts == old(lease.receipts) && lease.readers == old(lease.readers)
    ensures ticket in {0, nextTicket} && |output| == capacity && written <= capacity
    ensures ticket != 0 ==>
        lease.kind == kind && lease.ticket == ticket && old(lease.ticket) == 0
        && !old(lease.denied) && status in {OK, MISSING}
    ensures ticket == 0 ==>
        lease.ticket == old(lease.ticket) && status != OK && output == Zeros(capacity)
        && written == 0
    ensures status == OK && os.quiet ==> Holds(os.disk, lease.TargetName(), output[..written])
    ensures ticket != 0 && lease.missing && os.quiet ==> lease.TargetName() !in os.disk.names
  {
    hide PinCount, ReceiptCount, ReadCount, Chained, Protected;
    output, written, ticket := Zeros(capacity), 0, 0;
    if kind !in {1, 2, 3, 4} || lease.role != (if kind == 4 then BRIDGE else APP) {
      return if kind == 3 then UNAVAILABLE else INVALID_INPUT, output, written, ticket;
    }
    if lease.ticket != 0 || nextTicket > INT64_MAX { return RESOURCE_LIMIT, output, written, ticket; }
    lease.kind := kind;
    var r, due, bytes := BeginGuarded(os, lease, capacity);
    if due {
      lease.ticket := nextTicket;
      return r.code, bytes + Zeros(capacity - |bytes|), |bytes|, nextTicket;
    }
    status := r.Caught();
    var closed := Finish(os, lease);
    if !closed { status := UNAVAILABLE; }
  }

  // ----- commit

  /** Checks everything again and chooses the temporary file's name. */
  method ChooseTemporary(os: Os, lease: Lease) returns (r: Outcome, name: string)
    requires lease.KindFits()
    modifies os`disk, os`looks, os`handles, lease`runtimeId, lease`denied, lease`quarantined
    ensures os.Honest(r) && os.Still() && Settles(old(os.handles), os.handles)
    ensures old(lease.denied) ==> lease.denied
    ensures old(lease.quarantined ==> lease.denied) ==> (lease.quarantined ==> lease.denied)
    ensures old(lease.quarantined) ==> lease.quarantined
    ensures r.Good() ==> |lease.pins| == lease.PinsNeeded()
  {
    hide Hex, Owed;
    name := "";
    var sid;
    r, sid := Check(os, lease);
    if r.Good() { r := TargetCurrent(os, lease, sid); }
    if !r.Good() { return; }
    var leftovers;
    r, leftovers := os.CountEntries(lease.pins[lease.Directory()].handle);
    if r.Good() && leftovers >= 32 { r := Code(RESOURCE_LIMIT); }
    if !r.Good() { return; }
    var runtime, random;
    r, runtime, random := os.RandomName();
    if r.Good() && (!Hex(runtime, 16) || !Hex(random, 8)) { r := Code(UNAVAILABLE); }
    if !r.Good() { return; }
    if lease.runtimeId == "" { lease.runtimeId := runtime; }
    name := "~tmp-" + lease.runtimeId + "-" + random;
  }

  /** Checks everything again and creates the temporary file next to the target. */
  method Prepare(os: Os, lease: Lease) returns (r: Outcome, sid: Sid)
    requires lease.Ok() && lease.KindFits()
    modifies os`disk, os`looks, os`handles, lease`temporary, lease`runtimeId, lease`denied, lease`quarantined
    ensures os.Honest(r) && Keeps(old(os.handles), os.handles) && Balanced(os, lease)
    ensures old(lease.denied) ==> lease.denied
    ensures (lease.quarantined ==> lease.denied) && (old(lease.quarantined) ==> lease.quarantined)
    ensures r.Good() ==> !lease.denied && |lease.pins| == lease.PinsNeeded()
    ensures os.disk.writes == old(os.disk.writes)
    ensures os.quiet ==> Kept(old(os.disk), os.disk)
    ensures r.Good() && lease.temporary.Live? ==>
      lease.temporary.id in os.handles.refers && (os.quiet ==>
          Unknown(old(os.disk), os.handles.refers[lease.temporary.id]))
  {
    hide PinCount, ReceiptCount, ReadCount, Chained, Protected;
    sid := [];
    var name;
    r, name := ChooseTemporary(os, lease);
    if r.Good() { r, sid := Check(os, lease); }
    if r.Good() {
      r, lease.temporary := os.TemporaryCreate(lease.pins[lease.Directory()].handle, name, sid);
    }
  }

  /** Writes the input into the temporary file and checks that nothing moved. */
  method Fill(os: Os, lease: Lease, sid: Sid, input: Bytes) returns (r: Outcome, temp: ObjectInfo)
    requires lease.KindFits() && |lease.pins| == lease.PinsNeeded()
    requires lease.temporary.Live? ==> lease.temporary.id in os.handles.refers
    modifies os`disk, os`looks, os`handles, lease`denied, lease`quarantined
    ensures os.Honest(r) && Settles(old(os.handles), os.handles)
    ensures old(lease.denied) ==> lease.denied
    ensures old(lease.quarantined ==> lease.denied) ==> (lease.quarantined ==> lease.denied)
    ensures old(lease.quarantined) ==> lease.quarantined
    ensures lease.temporary.Live? && os.quiet ==> Extends(old(os.disk), os.disk, os.handles.refers[lease.temporary.id])
    ensures !lease.temporary.Live? && os.quiet ==> os.disk == old(os.disk)
    ensures r.Good() ==> lease.temporary.Live? && temp.id == os.handles.refers[lease.temporary.id] && !lease.denied
    ensures r.Good() && os.quiet ==> temp.id in os.disk.content && os.disk.content[temp.id] == input
  {
    hide ObjectValid, Owed;
    temp := NO_INFO;
    if !lease.temporary.Live? { return Code(UNAVAILABLE), temp; }
    r, temp := os.Inspect(lease.temporary);
    if r.Good() && (!ObjectValid(temp, sid, false, true, true)
                    || temp.id.volume != lease.pins[lease.Directory()].identity.id.volume) {
      r := Code(UNAVAILABLE);
    }
    if !r.Good() { return; }
    r := os.WriteFile(lease.temporary, input);
    if r.Good() { r := os.FlushFile(lease.temporary); }
    if !r.Good() { return; }
    var again;
    r, again := Check(os, lease);
    if r.Good() { r := TargetCurrent(os, lease, again); }
    if !r.Good() { return; }
    var current;
    r, current := os.Inspect(lease.temporary);
    if r.Good() && (!ObjectValid(current, again, false, true, true)
        || current.id != temp.id) { r := Code(UNAVAILABLE); }
  }

  /** Renames the filled temporary file over the name and looks at the result. From the
      moment the rename was entered the answer is OK or COMMIT_UNKNOWN. */
  method Publish(os: Os, lease: Lease, sid: Sid, temp: ObjectInfo) returns (r: Outcome, replacing: bool)
    requires lease.KindFits() && |lease.pins| == lease.PinsNeeded() && !lease.denied
    requires OpenOn(os.handles, lease.temporary, temp.id)
    modifies os`disk, os`looks, os`handles, lease`target, lease`temporary, lease`missing, lease`targetIdentity,
        lease`denied,
        lease`quarantined
    ensures Keeps(old(os.handles), os.handles) && Balanced(os, lease)
    ensures (lease.quarantined ==> lease.denied || old(lease.quarantined))
        && (old(lease.quarantined) ==> lease.quarantined)
    ensures if replacing then r in {Code(OK), Code(COMMIT_UNKNOWN)} || r.Threw? else !r.Good() && os.Honest(r)
    ensures os.quiet ==> os.disk == old(os.disk)
                         || (replacing
                             && os.disk == old(os.disk).(names := old(os.disk).names[lease.TargetName() := temp.id]))
    ensures r.Good() && os.quiet ==> lease.TargetName() in os.disk.names && os.disk.names[lease.TargetName()] == temp.id
  {
    hide PinCount, ReceiptCount, ReadCount, Chained, Protected, ObjectValid;
    replacing := false;
    if lease.target != Null {
      var target := lease.target;
      lease.target := Null;
      var closed := CloseOnce(os, target);
      if !closed {
        lease.denied, lease.quarantined := true, true;
        return Code(UNAVAILABLE), replacing;
      }
    }
    replacing := true;
    r := os.Replace(lease.temporary, lease.pins[lease.Directory()].handle, lease.TargetName(), !lease.missing);
    if r.Threw? { return; }
    if !r.Good() { return Code(COMMIT_UNKNOWN), replacing; }
    r := Confirm(os, lease, temp);
  }

  /** The one close attempt of the temporary; a failed one quarantines the lease. */
  method CloseTemporary(os: Os, lease: Lease) returns (closed: bool)
    modifies os`disk, os`handles, lease`temporary, lease`denied, lease`quarantined
    ensures os.Still() && Balanced(os, lease) && os.handles.refers == old(os.handles.refers)
    ensures if closed then lease.denied == old(lease.denied) && lease.quarantined == old(lease.quarantined)
            else lease.denied && lease.quarantined
  {
    hide PinCount, ReceiptCount, ReadCount, Chained, Protected;
    var temporary := lease.temporary;
    lease.temporary := Null;
    closed := CloseOnce(os, temporary);
    if !closed { lease.denied, lease.quarantined := true, true; }
  }

  /** After a reported success: the temporary's handle is closed and the name must be
      found bound to it. Anything short of that leaves the outcome unknown. */
  method Confirm(os: Os, lease: Lease, temp: ObjectInfo) returns (r: Outcome)
    requires lease.KindFits()
    modifies os`disk, os`looks, os`handles, lease`temporary, lease`missing, lease`targetIdentity, lease`denied,
        lease`quarantined
    ensures os.Still() && Keeps(old(os.handles), os.handles) && Balanced(os, lease)
    ensures lease.quarantined ==> lease.denied || old(lease.quarantined)
    ensures old(lease.quarantined) ==> lease.quarantined
    ensures r in {Code(OK), Code(COMMIT_UNKNOWN)} || r.Threw?
    ensures r.Good() && os.quiet ==> lease.TargetName() in os.disk.names && os.disk.names[lease.TargetName()] == temp.id
  {
    hide PinCount, ReceiptCount, ReadCount, Chained, Protected, Verified, Doubted, Since, Refusal;
    var closed := CloseTemporary(os, lease);
    if !closed { return Code(COMMIT_UNKNOWN); }
    lease.missing, lease.targetIdentity := false, temp;
    var again;
    r, again := Check(os, lease);
    if r.Good() { r := TargetCurrent(os, lease, again); }
    if !r.Good() && !r.Threw? { r := Code(COMMIT_UNKNOWN); }
  }

  method CommitGuarded(os: Os, lease: Lease, input: Bytes) returns (r: Outcome, replacing: bool)
    requires lease.Ok() && lease.ticket != 0
    modifies os`disk, os`looks, os`handles, lease`target, lease`temporary, lease`missing, lease`targetIdentity,
        lease`runtimeId,
             lease`denied, lease`quarantined
    ensures Keeps(old(os.handles), os.handles) && Balanced(os, lease)
    ensures old(lease.denied) ==> lease.denied && !replacing
    ensures (lease.quarantined ==> lease.denied) && (old(lease.quarantined) ==> lease.quarantined)
    ensures if replacing then r in {Code(OK), Code(COMMIT_UNKNOWN)} || r.Threw? else !r.Good() && os.Honest(r)
    ensures os.quiet ==>
      Kept(old(os.disk), os.disk) || (replacing && Published(old(os.disk), os.disk, lease.TargetName(), input))
    ensures os.quiet && r.Good() ==> Published(old(os.disk), os.disk, lease.TargetName(), input)
  {
    hide PinCount, ReceiptCount, ReadCount, Chained, Protected;
    replacing := false;
    var sid, temp;
    r, sid := Prepare(os, lease);
    if !r.Good() { return; }
    r, temp := Fill(os, lease, sid, input);
    if !r.Good() { return; }
    r, replacing := Publish(os, lease, sid, temp);
  }

  /** Commits a ticket that was accepted. It is consumed on every path. Whatever the
      outcome, the fixed name is bound as before or to a new file holding exactly the
      input, and no earlier file lost a byte. */
  method Commit(os: Os, lease: Lease, input: Bytes) returns (status: int, ghost replaced: bool)
    requires lease.Ok() && lease.ticket != 0
    modifies os`disk, os`looks, os`handles, lease
    ensures lease.Ok() && Keeps(old(os.handles), os.handles) && Balanced(os, lease)
    ensures (old(lease.denied) ==> lease.denied) && (old(lease.quarantined) ==> lease.quarantined)
    ensures lease.receipts == old(lease.receipts) && lease.readers == old(lease.readers)
    ensures lease.ticket == 0 && lease.kind == old(lease.kind)
    ensures replaced ==> status in {OK, COMMIT_UNKNOWN} && !old(lease.denied)
    ensures !replaced ==> status != OK && (os.honest ==> status != COMMIT_UNKNOWN)
    ensures os.quiet ==>
      Kept(old(os.disk), os.disk) || Published(old(os.disk), os.disk, lease.TargetName(), input)
    ensures os.quiet && !replaced ==> os.disk.names == old(os.disk.names)
    ensures os.quiet && status == OK ==> Published(old(os.disk), os.disk, lease.TargetName(), input)
  {
    hide PinCount, ReceiptCount, ReadCount, Chained, Protected;
    var r, replacing := CommitGuarded(os, lease, input);
    status := if r.Threw? && replacing then COMMIT_UNKNOWN else r.Caught();
    var closed := Finish(os, lease);
    if !closed { status := if replacing then COMMIT_UNKNOWN else UNAVAILABLE; }
    replaced := replacing;
  }

  /** Gives the ticket back. */
  method Abort(os: Os, lease: Lease) returns (status: int)
    requires lease.Ok() && lease.ticket != 0
    modifies os`disk, os`looks, os`handles, lease
    ensures lease.Ok() && Keeps(old(os.handles), os.handles) && Balanced(os, lease) && os.Still()
    ensures (old(lease.denied) ==> lease.denied) && (old(lease.quarantined) ==> lease.quarantined)
    ensures lease.receipts == old(lease.receipts) && lease.readers == old(lease.readers)
    ensures lease.ticket == 0 && lease.target == Null
    ensures status in {OK, UNAVAILABLE} && (status == UNAVAILABLE ==> lease.quarantined)
  {
    hide PinCount, ReceiptCount, ReadCount, Chained, Protected;
    var closed := Finish(os, lease);
    status := if closed then OK else UNAVAILABLE;
  }
}
