/** Whole runs of calls against one table of owners, and what a client may rely on. */
module ProtectedRuns {
  import opened ObjectSeam
  import opened Leases
  import opened ProtectedObjects
  import DiscoveryFiles
  import ExchangeFiles

  type Identifier = b: Bytes | |b| == 16 witness [0, 0, 0, 0, 0, 0, 0, 0, 0, 0, 0, 0, 0, 0, 0, 0]

  /** One call of the C ABI with its arguments. */
  datatype Call =
    | Acquire(version: int, role: int)
    | Validate(version: int, token: nat)
    | Close(version: int, token: nat)
    | AssociationBegin(version: int, owner: nat, capacity: nat)
    | CredentialBegin(version: int, owner: nat, kind: int, capacity: nat)
    | Commit(version: int, owner: nat, ticket: nat, credential: bool, input: Bytes)
    | Abort(version: int, owner: nat, ticket: nat, credential: bool)
    | ExchangeCreate(version: int, owner: nat, kind: int, id: Identifier, input: Bytes)
    | ExchangeRead(version: int, owner: nat, kind: int, id: Identifier, capacity: nat, begin: bool)
    | ExchangeCleanup(version: int, owner: nat, receipt: nat)
    | ExchangeSettle(version: int, owner: nat, serial: nat, nonce: Bytes, consume: bool)
    | DiscoveryPublish(version: int, owner: nat, kind: int, input: Bytes)
    | DiscoveryRead(version: int, owner: nat, kind: int, capacity: nat)

  method Step(objects: Objects, call: Call) returns (status: int)
    requires objects.Valid()
    modifies objects.Repr()
    ensures objects.Valid() && objects.Progress() && objects.Grown()
  {
    hide Lease.Ok, Objects.Books, Objects.Authorities, Objects.Denials, Objects.Progress;
    match call
    case Acquire(version, role) =>
      var token;
      status, token := objects.Acquire(version, role);
    case Validate(version, token) =>
      ghost var slot;
      status, slot := objects.Validate(version, token);
    case Close(version, token) => status := objects.Close(version, token);
    case AssociationBegin(version, owner, capacity) =>
      var output, written, ticket;
      ghost var slot;
      status, output, written, ticket, slot := objects.Begin(version, owner, 3, capacity);
    case CredentialBegin(version, owner, kind, capacity) =>
      // The association's kind is not a credential: it goes through as an invalid one.
      var output, written, ticket;
      ghost var slot;
      status, output, written, ticket, slot := objects.Begin(version, owner, if kind == 3 then 0 else kind, capacity);
    case Commit(version, owner, ticket, credential, input) =>
      ghost var slot, replaced;
      status, slot, replaced := objects.Commit(version, owner, ticket, credential, input);
    case Abort(version, owner, ticket, credential) =>
      ghost var slot;
      status, slot := objects.Abort(version, owner, ticket, credential);
    case ExchangeCreate(version, owner, kind, id, input) =>
      var receipt;
      ghost var slot;
      status, receipt, slot := objects.ExchangeCreate(version, owner, kind, id, input);
    case ExchangeRead(version, owner, kind, id, capacity, begin) =>
      var bytes, ticket, nonce;
      ghost var slot;
      status, bytes, ticket, nonce, slot := objects.ExchangeRead(version, owner, kind, id, capacity, begin);
    case ExchangeCleanup(version, owner, receipt) =>
      ghost var slot;
      status, slot := objects.ExchangeCleanup(version, owner, receipt);
    case ExchangeSettle(version, owner, serial, nonce, consume) =>
      ghost var slot;
      status, slot := objects.ExchangeSettle(version, owner, serial, nonce, consume);
    case DiscoveryPublish(version, owner, kind, input) =>
      ghost var renamed;
      status, renamed := objects.DiscoveryPublish(version, owner, kind, input);
    case DiscoveryRead(version, owner, kind, capacity) =>
      var bytes;
      status, bytes := objects.DiscoveryRead(version, owner, kind, capacity);
  }

  lemma KeepsTransitive(t: HandleTable, u: HandleTable, v: HandleTable)
    requires Keeps(t, u) && Keeps(u, v)
    ensures Keeps(t, v)
  {
  }

  lemma WriteOnceTransitive(d: Disk, e: Disk, f: Disk)
    requires WriteOnce(d, e) && WriteOnce(e, f)
    ensures WriteOnce(d, f)
  {
  }

  /** Every handle ever handed out: closed at most once, and stored in exactly one field
      of exactly one lease as long as no close was attempted. */
  ghost predicate HandlesOwned(objects: Objects)
    reads objects, objects.owners, objects.os
  {
    forall k: nat ::
      && objects.os.handles.attempts[k] <= 1
      && (k < objects.os.handles.next && objects.os.handles.attempts[k] == 0 ==>
            exists i | 0 <= i < |objects.owners| && objects.owners[i] != null ::
              objects.owners[i].Held(k) == 1
              && forall j | 0 <= j < |objects.owners| && j != i && objects.owners[j] != null ::
                  objects.owners[j].Held(k) == 0)
  }

  /** Any calls in any order, whatever the seam answers to each of them. */
  method Run(objects: Objects, calls: seq<Call>) returns (statuses: seq<int>)
    requires objects.Valid()
    modifies objects.Repr()
    ensures objects.Valid() && objects.Progress() && objects.Grown() && |statuses| == |calls|
    // Handles.
    ensures HandlesOwned(objects)
    // Serials: what was granted stays granted as it was, each is spent at most once.
    ensures forall i, j | 0 <= i < j < |objects.os.deletes| ::
        objects.os.deletes[i].serial != objects.os.deletes[j].serial
    ensures forall i | 0 <= i < |objects.os.deletes| ::
      var d := objects.os.deletes[i];
      && d.serial in objects.issued && objects.issued[d.serial].Deletion?
      && OpenOn(objects.os.handles, d.handle, objects.issued[d.serial].file) 
      && (objects.issued[d.serial].reader ==> d.seen == objects.issued[d.serial].bytes)
    ensures forall i | 0 <= i < |objects.os.creations| :: objects.os.creations[i] < 32
    // Denial is for good.
    ensures forall t, j | t in objects.condemned && objects.condemned[t] <= j < |objects.uses| :: objects.uses[j] != t
    // Write-once names.
    ensures objects.os.quiet ==> WriteOnce(old(objects.os.disk), objects.os.disk)
  {
    hide Lease.Held, Lease.Ok, TableHeld, Owed, Backed, Keeps, WriteOnce, Objects.Table, Objects.Books;
    statuses := [];
    objects.NoChange();
    for i := 0 to |calls|
      invariant objects.Valid() && objects.Progress() && objects.Grown() && |statuses| == i
    {
      hide Objects.Authorities, Objects.Denials;
      ghost var handles, disk := objects.os.handles, objects.os.disk;
      var status := Step(objects, calls[i]);
      KeepsTransitive(old(objects.os.handles), handles, objects.os.handles);
      if objects.os.quiet { WriteOnceTransitive(old(objects.os.disk), disk, objects.os.disk); }
      statuses := statuses + [status];
    }
    forall k: nat { objects.Conservation(k); }
  }

  /** From the first call to the destructor: without a failed close, every handle that was
      handed out had exactly one close attempt. */
  method Lifetime(os: Os, initialize: bool, calls: seq<Call>) returns (statuses: seq<int>, ghost leases: seq<Lease?>)
    requires os.handles == HandleTable(0, multiset{}, map[]) && os.deletes == [] && os.creations == []
    modifies os
    ensures forall k: nat :: os.handles.attempts[k] <= if k < os.handles.next then 1 else 0
    ensures (forall i | 0 <= i < |leases| && leases[i] != null :: !leases[i].quarantined) ==>
              forall k: nat :: os.handles.attempts[k] == if k < os.handles.next then 1 else 0
  {
    hide Lease.Held, Lease.Ok, TableHeld, Owed, Objects.Authorities, Objects.Denials, Objects.Progress, HandlesOwned,
        Covered, WriteOnce;
    var objects := new Objects(os, initialize);
    statuses := Run(objects, calls);
    leases := objects.owners;
    objects.Destroy();
    forall k: nat { objects.Conservation(k); }
  }

  /** Commit, then begin: the next transaction on the same name reads what the last one
      wrote. */
  method CommitThenBegin(objects: Objects, owner: nat, ticket: nat, kind: int, input: Bytes, capacity: nat)
    returns (committed: int, begun: int, output: Bytes, written: nat, next: nat)
    requires objects.Valid()
    requires forall i | 0 <= i < MAX_OWNERS && objects.IsLease(i, owner) :: objects.owners[i].kind == kind
    modifies objects.Repr()
    ensures objects.Valid() && written <= |output|
    ensures objects.os.quiet && committed == OK && begun == OK ==> output[..written] == input
    ensures committed == OK && next != 0 ==> next != ticket
  {
    hide Lease.Ok, Objects.Books, Objects.Denials;
    output, written, next, begun := [], 0, 0, UNAVAILABLE;
    ghost var slot, replaced, again;
    committed, slot, replaced := objects.Commit(ABI_VERSION, owner, ticket, kind != 3, input);
    if committed == OK {
      assert objects.IsLease(slot, owner);
      begun, output, written, next, again := objects.Begin(ABI_VERSION, owner, kind, capacity);
      assert begun == OK ==> again == slot;
    }
  }

  /** What the creator of an exchange file wrote is what a reader is handed. */
  method CreateThenRead(objects: Objects, creator: nat, reader: nat, kind: int, id: Identifier, input: Bytes,
      begin: bool)
    returns (created: int, read: int, bytes: Bytes, receipt: nat, ticket: nat)
    requires objects.Valid()
    modifies objects.Repr()
    ensures objects.Valid()
    ensures objects.os.quiet && created == OK && read == OK ==> bytes == input
    ensures created == OK && ticket != 0 ==> ticket != receipt
  {
    hide Lease.Ok, Objects.Books, Objects.Authorities, Objects.Denials;
    read, bytes, ticket := UNAVAILABLE, [], 0;
    ghost var slot, other;
    created, receipt, slot := objects.ExchangeCreate(ABI_VERSION, creator, kind, id, input);
    if created == OK {
      var nonce;
      read, bytes, ticket, nonce, other := objects.ExchangeRead(ABI_VERSION, reader, kind, id,
          ExchangeFiles.Cap(kind), begin);
    }
  }

  /** The bytes of the file a name is bound to are on record. */
  ghost predicate Recorded(d: Disk, name: Name) {
    name in d.names ==> d.names[name] in d.content
  }

  /** A read after a successful publication returns the published bytes. */
  method PublishThenRead(objects: Objects, writer: nat, reader: nat, kind: int, input: Bytes)
    returns (published: int, read: int, bytes: Bytes)
    requires objects.Valid() && Recorded(objects.os.disk, Name.Discovery(kind))
    modifies objects.Repr()
    ensures objects.Valid()
    ensures objects.os.quiet && published == OK && read == OK ==> bytes == input
  {
    hide Lease.Ok, Objects.Books, Objects.Authorities, Objects.Denials;
    read, bytes := UNAVAILABLE, [];
    ghost var renamed;
    published, renamed := objects.DiscoveryPublish(ABI_VERSION, writer, kind, input);
    if published == OK {
      read, bytes := objects.DiscoveryRead(ABI_VERSION, reader, kind, DiscoveryFiles.Cap(kind));
    }
  }

  /** A write-once name takes one content: a second publication of other bytes fails, and
      no second publication writes a file or changes what is stored. The endpoint takes the
      later bytes. */
  method PublishTwice(objects: Objects, writer: nat, kind: int, first: Bytes, second: Bytes)
    returns (published: int, again: int, ghost writes: nat)
    requires objects.Valid() && Recorded(objects.os.disk, Name.Discovery(kind))
    modifies objects.Repr()
    ensures objects.Valid()
    ensures objects.os.quiet && published == OK && kind != DiscoveryFiles.ENDPOINT ==>
      && (first != second ==> again != OK)
      && objects.os.disk.writes == writes && Stores(objects.os.disk, Name.Discovery(kind), first)
    ensures objects.os.quiet && published == OK && again == OK ==> Stores(objects.os.disk, Name.Discovery(kind), second)
  {
    hide Lease.Ok, Objects.Books, Objects.Authorities, Objects.Denials;
    ghost var renamed;
    published, renamed := objects.DiscoveryPublish(ABI_VERSION, writer, kind, first);
    writes := objects.os.disk.writes;
    again, renamed := objects.DiscoveryPublish(ABI_VERSION, writer, kind, second);
  }
}
