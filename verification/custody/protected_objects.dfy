/** The table of owners: up to 32 leases, the counters that number leases and authorities,
    and the calls of the C ABI. Each call is one atomic step. */
module ProtectedObjects {
  import opened ObjectSeam
  import opened Leases
  import opened LeaseOperations
  import AssociationFiles
  import DiscoveryFiles
  import ExchangeFiles

  const MAX_OWNERS := 32
  const ABI_VERSION := 3

  /** What a serial was given out for: a transaction, or the deletion of one file by its
      creator or by a reader of exactly these bytes. */
  datatype Grant = Transaction(owner: nat) | Deletion(owner: nat, reader: bool, slot: nat, file: FileId, bytes: Bytes)

  /** The use of a serial: by which lease of the table, from which of its slots. */
  datatype Spending = Spending(lease: nat, slot: nat, serial: nat)

  // ----- in how many fields of the table a handle is stored

  ghost function Sum(counts: seq<nat>): nat {
    if counts == [] then 0 else Sum(counts[..|counts| - 1]) + counts[|counts| - 1]
  }

  lemma {:induction false} SumUpdate(counts: seq<nat>, i: nat, n: nat)
    requires i < |counts|
    ensures Sum(counts[i := n]) == Sum(counts) - counts[i] + n
  {
    var last := |counts| - 1;
    if i < last {
      SumUpdate(counts[..last], i, n);
      assert counts[i := n][..last] == counts[..last][i := n];
    } else {
      assert counts[i := n][..last] == counts[..last];
    }
  }

  lemma {:induction false} SumZero(counts: seq<nat>)
    ensures Sum(counts) == 0 <==> forall j | 0 <= j < |counts| :: counts[j] == 0
  {
    if counts != [] {
      SumZero(counts[..|counts| - 1]);
      assert forall j | 0 <= j < |counts| - 1 :: counts[..|counts| - 1][j] == counts[j];
    }
  }

  /** A sum of one is one one and zeros. */
  lemma {:induction false} SumOne(counts: seq<nat>) returns (i: nat)
    requires Sum(counts) == 1
    ensures i < |counts| && counts[i] == 1 && forall j | 0 <= j < |counts| && j != i :: counts[j] == 0
  {
    var n := |counts| - 1;
    if counts[n] == 1 {
      i := n;
      SumZero(counts[..n]);
    } else {
      i := SumOne(counts[..n]);
    }
    assert forall j | 0 <= j < n :: counts[..n][j] == counts[j];
  }

  ghost function HeldBy(lease: Lease?, k: nat): nat
    reads lease
  {
    if lease == null then 0 else lease.Held(k)
  }

  /** How many fields each lease of the table has the handle k in. */
  ghost function Fields(owners: seq<Lease?>, k: nat): (counts: seq<nat>)
    reads owners
    ensures |counts| == |owners| && forall i | 0 <= i < |owners| :: counts[i] == HeldBy(owners[i], k)
  {
    seq(|owners|, i requires 0 <= i < |owners| reads owners => HeldBy(owners[i], k))
  }

  ghost function TableHeld(owners: seq<Lease?>, k: nat): nat
    reads owners
  {
    Sum(Fields(owners, k))
  }

  /** Only one count changed: the total moved by what it moved by. */
  lemma SumMoves(before: seq<nat>, after: seq<nat>, i: nat)
    requires i < |before| == |after|
    requires forall j | 0 <= j < |before| && j != i :: after[j] == before[j]
    ensures Sum(after) == Sum(before) - before[i] + after[i]
  {
    SumUpdate(before, i, after[i]);
    assert after == before[i := after[i]];
  }

  lemma TableHeldUpdate(owners: seq<Lease?>, i: nat, lease: Lease?, k: nat)
    requires i < |owners|
    ensures TableHeld(owners[i := lease], k) == TableHeld(owners, k) - HeldBy(owners[i], k) + HeldBy(lease, k)
  {
    SumUpdate(Fields(owners, k), i, HeldBy(lease, k));
    assert Fields(owners[i := lease], k) == Fields(owners, k)[i := HeldBy(lease, k)];
  }

  // ----- authorities

  /** No deletion was ever asked for on this serial. */
  ghost predicate Unspent(log: seq<DeleteRequest>, serial: nat) {
    forall j | 0 <= j < |log| :: log[j].serial != serial
  }

  /** Every authority the lease holds was granted to that very slot and is unspent. */
  ghost predicate Backed(lease: Lease, issued: map<nat, Grant>, log: seq<DeleteRequest>)
    reads lease
  {
    && (lease.ticket != 0 ==> lease.ticket in issued && issued[lease.ticket] == Transaction(lease.token))
    && (forall i | 0 <= i < |lease.receipts| && lease.receipts[i].token != 0 ::
          && lease.receipts[i].token in issued && Unspent(log, lease.receipts[i].token)
          && issued[lease.receipts[i].token] == Deletion(lease.token, false, i, lease.receipts[i].identity.id, []))
    && (forall i | 0 <= i < |lease.readers| && lease.readers[i].token != 0 ::
          && lease.readers[i].token in issued && Unspent(log, lease.readers[i].token)
          && issued[lease.readers[i].token] ==
               Deletion(lease.token, true, i, lease.readers[i].identity.id, lease.readers[i].bytes))
  }

  /** Every deletion that was asked for was covered by a grant, no grant twice, through a
      handle on the granted file, after a reader saw the granted bytes once more. */
  ghost predicate Covered(table: HandleTable, issued: map<nat, Grant>, log: seq<DeleteRequest>) {
    && (forall j | 0 <= j < |log| ::
          && log[j].serial in issued && issued[log[j].serial].Deletion?
          && OpenOn(table, log[j].handle, issued[log[j].serial].file)
          && (issued[log[j].serial].reader ==> log[j].seen == issued[log[j].serial].bytes))
    && (forall i, j | 0 <= i < j < |log| :: log[i].serial != log[j].serial)
  }

  /** A write-once name that was bound still is, to the same file with the same bytes. */
  ghost predicate WriteOnce(d: Disk, e: Disk) {
    forall kind | kind != DiscoveryFiles.ENDPOINT && Name.Discovery(kind) in d.names ::
      && Name.Discovery(kind) in e.names && e.names[Name.Discovery(kind)] == d.names[Name.Discovery(kind)]
      && (var f := d.names[Name.Discovery(kind)]; f in d.content ==> f in e.content && e.content[f] == d.content[f])
  }

  lemma WriteOnceSelf(d: Disk)
    ensures WriteOnce(d, d)
  {
  }

  lemma DiscoveryKept(d: Disk, e: Disk)
    ensures KeepsDiscovery(d, e) ==> WriteOnce(d, e)
  {
  }

  lemma PublishedKeeps(d: Disk, e: Disk, name: Name, bytes: Bytes)
    ensures Kept(d, e) ==> WriteOnce(d, e)
    ensures
      Published(d, e, name, bytes) && (name.Discovery? && name.kind != DiscoveryFiles.ENDPOINT ==> name !in d.names)
      ==> WriteOnce(d, e)
  {
  }

  /** A condemned token is old, and no use of it came after its condemnation. */
  ghost predicate Sealed(condemned: map<nat, nat>, uses: seq<nat>, next: nat) {
    && (forall t | t in condemned :: t < next && condemned[t] <= |uses|)
    && (forall t, j | t in condemned && condemned[t] <= j < |uses| :: uses[j] != t)
  }

  lemma SealedUse(condemned: map<nat, nat>, uses: seq<nat>, next: nat, token: nat)
    requires Sealed(condemned, uses, next) && token !in condemned && token < next
    ensures Sealed(condemned, uses + [token], next) && Sealed(condemned[token := |uses|], uses, next)
  {
  }

  class Objects {
    const os: Os
    const initialize: bool
    var owners: seq<Lease?>
    var nextToken: nat
    var nextTicket: nat
    /** Every serial ever given out, and what for. */
    ghost var issued: map<nat, Grant>
    /** The owner of every successful use of a lease, in order. */
    ghost var uses: seq<nat>
    /** The tokens of denied and closed leases, with how many uses came before. */
    ghost var condemned: map<nat, nat>

    constructor (os: Os, initialize: bool)
      requires os.handles == HandleTable(0, multiset{}, map[]) && os.deletes == [] && os.creations == []
      ensures this.os == os && this.initialize == initialize
      ensures Valid() && owners == seq(MAX_OWNERS, i => null) && nextToken == nextTicket == 1
    {
      this.os, this.initialize := os, initialize;
      owners := seq(MAX_OWNERS, i => null);
      nextToken, nextTicket := 1, 1;
      issued, uses, condemned := map[], [], map[];
      new;
      forall k: nat ensures Owed(os.handles, k) == TableHeld(owners, k) { SumZero(Fields(owners, k)); }
    }

    ghost function Repr(): set<object>
      reads this
    {
      {this, os} + (set l: Lease | l in owners)
    }

    /** The leases are well-formed and carry distinct tokens that were given out. */
    ghost predicate Table()
      reads `owners, `nextToken, `nextTicket, owners
    {
      && |owners| == MAX_OWNERS && nextToken >= 1 && nextTicket >= 1
      && (forall i | 0 <= i < |owners| && owners[i] != null :: owners[i].Ok() && 0 < owners[i].token < nextToken)
      && (forall i, j | 0 <= i < j < |owners| && owners[i] != null && owners[j] != null ::
          owners[i].token != owners[j].token)
    }

    /** As Table, with one lease that is being built or taken down. */
    ghost predicate TableBut(i: nat)
      reads `owners, `nextToken, `nextTicket, owners
    {
      && |owners| == MAX_OWNERS && nextToken >= 1 && nextTicket >= 1 && i < |owners| && owners[i] != null
      && (forall j | 0 <= j < |owners| && owners[j] != null ::
          (j != i ==> owners[j].Ok())
          && 0 < owners[j].token < nextToken)
      && owners[i].role in {APP, BRIDGE} && |owners[i].receipts| == |owners[i].readers| == SLOTS
      && (forall j, k | 0 <= j < k < |owners| && owners[j] != null && owners[k] != null ::
          owners[j].token != owners[k].token)
    }

    /** Handed out minus close attempts is exactly what the table stores. */
    ghost predicate Books()
      reads `owners, owners, os`handles
    {
      forall k: nat :: Owed(os.handles, k) == TableHeld(owners, k)
    }

    ghost predicate Authorities()
      reads `owners, `issued, `nextTicket, owners, os
    {
      && (forall s | s in issued :: 0 < s < nextTicket)
      && (forall i | 0 <= i < |owners| && owners[i] != null :: Backed(owners[i], issued, os.deletes))
      && Covered(os.handles, issued, os.deletes)
      && (forall j | 0 <= j < |os.creations| :: os.creations[j] < 32)
    }

    /** Denied leases are the condemned ones of the table, and a condemned token was never
        used again. */
    ghost predicate Denials()
      reads this, owners
    {
      && (forall i | 0 <= i < |owners| && owners[i] != null :: owners[i].denied <==> owners[i].token in condemned)
      && Sealed(condemned, uses, nextToken)
    }

    ghost predicate Valid()
      reads this, owners, os
    {
      Table() && Books() && Authorities() && Denials()
    }

    /** What every call keeps of the past, and so every run of calls. */
    twostate predicate Progress()
      reads this, os
    {
      && Keeps(old(os.handles), os.handles)
      && old(nextToken) <= nextToken && old(nextTicket) <= nextTicket
      && (forall s | s in old(issued) :: s in issued && issued[s] == old(issued)[s])
      && (forall t | t in old(condemned) :: t in condemned && condemned[t] == old(condemned)[t])
      && old(uses) <= uses && old(os.deletes) <= os.deletes && old(os.creations) <= os.creations
      && (os.quiet ==> WriteOnce(old(os.disk), os.disk))
    }

    /** The leases of the table are those that were there, or new ones. */
    twostate predicate Grown()
      reads this
    {
      forall i | 0 <= i < |owners| && owners[i] != null :: owners[i] in old(owners) || fresh(owners[i])
    }

    /** Nothing has moved yet. */
    twostate lemma NoChange()
      requires unchanged(this) && unchanged(os)
      ensures Progress()
    {
    }

    // ----- what one operation on one lease leaves to do

    /** As Denials, with one lease that may have been denied just now. */
    ghost predicate DenialsBut(i: nat)
      requires i < |owners| && owners[i] != null
      reads this, owners
    {
      && (forall j | 0 <= j < |owners| && j != i && owners[j] != null :: owners[j].denied <==>
          owners[j].token in condemned)
      && (owners[i].token in condemned ==> owners[i].denied)
      && Sealed(condemned, uses, nextToken)
    }

    lemma Distinct(i: nat)
      requires TableBut(i)
      ensures |owners| == MAX_OWNERS && i < |owners| && owners[i] != null && owners[i].token < nextToken
      ensures forall j | 0 <= j < |owners| && j != i && owners[j] != null :: owners[j].token != owners[i].token
    {
    }

    ghost method Enter(i: nat, more: seq<nat>, marked: map<nat, nat>)
      requires TableBut(i) && Books() && Authorities()
      modifies this`uses, this`condemned
      ensures TableBut(i) && Books() && Authorities() && uses == more && condemned == marked
    {
      hide Books, Authorities, TableBut;
      uses, condemned := more, marked;
    }

    /** Records that the lease was used with success, and that it was denied. */
    ghost method Note(i: nat, used: bool)
      requires TableBut(i) && Books() && Authorities() && DenialsBut(i)
      requires used ==> owners[i].token !in condemned
      modifies this`uses, this`condemned
      ensures TableBut(i) && Books() && Authorities() && Denials()
      ensures if owners[i].denied then owners[i].token in condemned else condemned == old(condemned)
      ensures uses == old(uses) + if used then [owners[i].token] else []
      ensures forall t | t in old(condemned) :: t in condemned && condemned[t] == old(condemned)[t]
    {
      Distinct(i);
      hide Books, Authorities, TableBut, Sealed;
      ghost var token, denied := owners[i].token, owners[i].denied;
      ghost var more := uses + if used then [token] else [];
      if token !in condemned {
        SealedUse(condemned, uses, nextToken, token);
        if used { SealedUse(condemned, more, nextToken, token); }
      }
      ghost var marked := if denied && token !in condemned then condemned[token := |more|] else condemned;
      assert Sealed(marked, more, nextToken);
      Enter(i, more, marked);
    }

    /** The books still balance after an operation that touched one lease. */
    twostate lemma BooksKept(i: nat)
      requires i < |owners| && owners[i] != null && owners == old(owners)
      requires forall j | 0 <= j < |owners| && j != i && owners[j] != null ::
          owners[j] != owners[i]
          && unchanged(owners[j])
      requires old(Books()) && Balanced(os, owners[i])
      ensures Books()
    {
      forall k: nat ensures Owed(os.handles, k) == TableHeld(owners, k) {
        SumMoves(old(Fields(owners, k)), Fields(owners, k), i);
        assert Owed(os.handles, k) - owners[i].Held(k) == old(Owed(os.handles, k)) - old(owners[i].Held(k));
      }
    }

    /** The whole table after an operation that touched one lease: the grants only grew,
        and whatever was spent was granted to that lease. */
    twostate lemma Conclude(i: nat)
      requires i < |owners| && owners[i] != null && owners == old(owners) && nextToken == old(nextToken)
      requires forall j | 0 <= j < |owners| && j != i && owners[j] != null ::
          owners[j] != owners[i]
          && unchanged(owners[j])
      requires old((Table() || TableBut(i)) && Books() && Authorities() && (Denials() || DenialsBut(i)))
          && Balanced(os, owners[i])
      requires owners[i].Ok() || |owners[i].receipts| == |owners[i].readers| == SLOTS
      requires old(owners[i].denied) ==> owners[i].denied
      requires old(nextTicket) <= nextTicket && uses == old(uses) && condemned == old(condemned)
      requires forall s | s in old(issued) :: s in issued && issued[s] == old(issued)[s]
      requires forall s | s in issued :: 0 < s < nextTicket
      requires Backed(owners[i], issued, os.deletes) && Covered(os.handles, issued, os.deletes)
      requires old(os.deletes) <= os.deletes
      requires forall d | |old(os.deletes)| <= d < |os.deletes| ::
        os.deletes[d].serial in issued && issued[os.deletes[d].serial].owner == owners[i].token
      requires forall c | 0 <= c < |os.creations| :: os.creations[c] < 32
      ensures TableBut(i) && Books() && Authorities() && DenialsBut(i)
      ensures old(Denials()) ==> (old(owners[i].denied) <==> owners[i].token in condemned)
    {
      hide PinCount, ReceiptCount, ReadCount, TableHeld, Owed, Lease.Held;
      BooksKept(i);
      forall j | 0 <= j < |owners| && owners[j] != null ensures Backed(owners[j], issued, os.deletes) {
        if j != i {
          assert old(Backed(owners[j], issued, os.deletes));
          assert owners[j].token != owners[i].token;
        }
      }
    }

    /** The same for an operation that gave out nothing and asked for no deletion. */
    twostate lemma ConcludePlain(i: nat)
      requires i < |owners| && owners[i] != null && owners == old(owners) && nextToken == old(nextToken)
      requires forall j | 0 <= j < |owners| && j != i && owners[j] != null ::
          owners[j] != owners[i]
          && unchanged(owners[j])
      requires old(Valid()) && owners[i].Ok() && Balanced(os, owners[i]) && Keeps(old(os.handles), os.handles)
      requires old(owners[i].denied) ==> owners[i].denied
      requires nextTicket == old(nextTicket) && issued == old(issued) && uses == old(uses)
          && condemned == old(condemned)
      requires owners[i].receipts == old(owners[i].receipts) && owners[i].readers == old(owners[i].readers)
      requires owners[i].ticket in {0, old(owners[i].ticket)}
      requires os.deletes == old(os.deletes) && os.creations == old(os.creations)
      ensures Table() && TableBut(i) && Books() && Authorities() && DenialsBut(i)
      ensures old(owners[i].denied) <==> owners[i].token in condemned
    {
      hide PinCount, ReceiptCount, ReadCount, TableHeld, Owed, Lease.Held;
      assert old(Backed(owners[i], issued, os.deletes));
      Conclude(i);
    }

    /** The same for the release of everything a lease holds. */
    twostate lemma ConcludeRelease(i: nat)
      requires i < |owners| && owners[i] != null && unchanged(this)
      requires forall j | 0 <= j < |owners| && j != i && owners[j] != null ::
          owners[j] != owners[i]
          && unchanged(owners[j])
      requires old(TableBut(i) && Books() && Authorities() && DenialsBut(i)) && Balanced(os, owners[i])
          && Keeps(old(os.handles), os.handles)
      requires |owners[i].receipts| == |owners[i].readers| == SLOTS
      requires Cleared(owners[i].receipts, owners[i].readers) && owners[i].ticket == 0 && owners[i].denied
      requires os.deletes == old(os.deletes) && os.creations == old(os.creations)
      ensures TableBut(i) && Books() && Authorities() && DenialsBut(i)
    {
      hide PinCount, ReceiptCount, ReadCount, TableHeld, Owed, Lease.Held;
      assert Backed(owners[i], issued, os.deletes);
      Conclude(i);
    }

    /** The same for a lease whose pins were built. */
    twostate lemma ConcludeBuild(i: nat)
      requires i < |owners| && owners[i] != null && unchanged(this)
      requires forall j | 0 <= j < |owners| && j != i && owners[j] != null ::
          owners[j] != owners[i]
          && unchanged(owners[j])
      requires old(TableBut(i) && Books() && Authorities() && Denials()) && Balanced(os, owners[i])
          && Keeps(old(os.handles), os.handles)
      requires owners[i].receipts == old(owners[i].receipts) && owners[i].readers == old(owners[i].readers)
      requires owners[i].ticket == old(owners[i].ticket) && owners[i].denied == old(owners[i].denied)
      requires os.deletes == old(os.deletes) && os.creations == old(os.creations)
      ensures TableBut(i) && Books() && Authorities() && DenialsBut(i)
      ensures !owners[i].denied ==> owners[i].token !in condemned
    {
      hide PinCount, ReceiptCount, ReadCount, TableHeld, Owed, Lease.Held;
      assert old(Backed(owners[i], issued, os.deletes));
      Conclude(i);
    }

    method Find(token: nat) returns (i: nat)
      requires Table()
      ensures i <= MAX_OWNERS
      ensures if i < MAX_OWNERS then owners[i] != null && owners[i].token == token
              else forall j | 0 <= j < |owners| && owners[j] != null :: owners[j].token != token
    {
      i := 0;
      while i < MAX_OWNERS && (owners[i] == null || owners[i].token != token)
        invariant i <= MAX_OWNERS
        invariant forall j | 0 <= j < i && owners[j] != null :: owners[j].token != token
      {
        i := i + 1;
      }
    }

    // ----- the transaction

    method Begin(version: int, owner: nat, kind: int, capacity: nat)
      returns (status: int, output: Bytes, written: nat, ticket: nat, ghost slot: nat)
      requires Valid()
      modifies Repr()
      ensures Valid() && Progress() && owners == old(owners) && slot <= MAX_OWNERS
      ensures ticket != 0 ==> status in {OK, MISSING} && Granted(ticket, Transaction(owner)) && Uses(owner)
      ensures ticket == 0 ==> status != OK && issued == old(issued) && written == 0
      ensures slot == MAX_OWNERS ==> ticket == 0
      ensures slot < MAX_OWNERS ==> IsLease(slot, owner) && |output| == capacity && written <= capacity
      ensures ticket != 0 ==> owners[slot].ticket == ticket && owners[slot].kind == kind
      ensures ticket != 0 && status == OK && os.quiet ==> Holds(os.disk, owners[slot].TargetName(), output[..written])
      ensures ticket != 0 && owners[slot].missing && os.quiet ==> owners[slot].TargetName() !in os.disk.names
      ensures os.quiet ==> os.disk == old(os.disk)
    {
      hide Books, Authorities, Denials, WriteOnce, Keeps, Lease.Ok;
      output, written, ticket, slot := [], 0, 0, MAX_OWNERS;
      NoChange();
      if capacity == 0 || capacity > MAX_BYTES { return INVALID_INPUT, output, written, ticket, slot; }
      output := AssociationFiles.Zeros(capacity);
      if version != ABI_VERSION { return ABI_MISMATCH, output, written, ticket, slot; }
      var i := Find(owner);
      slot := i;
      if i == MAX_OWNERS { return INVALID_INPUT, output, written, ticket, slot; }
      status, output, written, ticket := BeginOn(i, kind, capacity);
    }

    method BeginOn(i: nat, kind: int, capacity: nat) returns (status: int, output: Bytes, written: nat, ticket: nat)
      requires Valid() && i < |owners| && owners[i] != null
      modifies Repr()
      ensures Valid() && Progress() && owners == old(owners)
      ensures ticket != 0 ==>
          status in {OK, MISSING} && Granted(ticket, Transaction(owners[i].token))
          && Uses(owners[i].token)
      ensures ticket == 0 ==> status != OK && issued == old(issued) && written == 0
      ensures |output| == capacity && written <= capacity
      ensures ticket != 0 ==> owners[i].ticket == ticket && owners[i].kind == kind
      ensures ticket != 0 && status == OK && os.quiet ==> Holds(os.disk, owners[i].TargetName(), output[..written])
      ensures ticket != 0 && owners[i].missing && os.quiet ==> owners[i].TargetName() !in os.disk.names
      ensures os.quiet ==> os.disk == old(os.disk)
    {
      hide Books, Balanced, Lease.Ok, Lease.Held, Lease.TargetName, Holds, Unspent, WriteOnce, Denials, DenialsBut;
      var lease := owners[i];
      assert Backed(lease, issued, os.deletes);
      status, output, written, ticket := AssociationFiles.Begin(os, lease, kind, capacity, nextTicket);
      if ticket != 0 { nextTicket, issued := nextTicket + 1, issued[ticket := Transaction(lease.token)]; }
      Conclude(i);
      Note(i, ticket != 0);
      if os.quiet { WriteOnceSelf(os.disk); }
    }

    /** The new serial and what it was given out for. */
    twostate predicate Granted(serial: nat, grant: Grant)
      reads this
    {
      serial == old(nextTicket) && serial !in old(issued) && issued == old(issued)[serial := grant]
          && nextTicket == serial + 1
    }

    /** A successful use of a lease that was never denied before. */
    twostate predicate Uses(owner: nat)
      reads this
    {
      owner !in old(condemned) && uses == old(uses) + [owner]
    }

    ghost predicate IsLease(i: nat, token: nat)
      reads this, owners
    {
      i < |owners| && owners[i] != null && owners[i].token == token
    }

    /** The lease i carries this very ticket, for this sort of transaction. */
    ghost predicate Accepts(i: nat, owner: nat, ticket: nat, credential: bool)
      reads this, owners
    {
      IsLease(i, owner) && ticket != 0 && owners[i].ticket == ticket && (owners[i].kind != 3) == credential
    }

    /** A new file under the fixed name, or an answer that says how far it got. Whatever
        the outcome, an accepted ticket is gone. */
    method Commit(version: int, owner: nat, ticket: nat, credential: bool, input: Bytes)
      returns (status: int, ghost slot: nat, ghost replaced: bool)
      requires Valid()
      modifies Repr()
      ensures Valid() && Progress() && owners == old(owners) && issued == old(issued) && slot <= MAX_OWNERS
      ensures slot == MAX_OWNERS ==> && status in {ABI_MISMATCH, INVALID_INPUT} && !replaced && os.disk == old(os.disk)
                                     && (version == ABI_VERSION && 0 < |input| <= MAX_BYTES ==>
                                           forall i | 0 <= i < MAX_OWNERS ::
                                               !old(Accepts(i, owner, ticket, credential)))
      ensures slot < MAX_OWNERS ==> && version == ABI_VERSION && 0 < |input| <= MAX_BYTES
                                    && old(Accepts(slot, owner, ticket, credential)) && owners[slot].ticket == 0
                                    && owners[slot].kind == old(owners[slot].kind)
      ensures if replaced then status in {OK, COMMIT_UNKNOWN}
              else status != OK && (os.honest ==> status != COMMIT_UNKNOWN)
      ensures status == OK ==> Uses(owner)
      ensures slot < MAX_OWNERS && os.quiet ==>
        Kept(old(os.disk), os.disk) || Published(old(os.disk), os.disk, owners[slot].TargetName(), input)
      ensures status == OK && os.quiet ==> Published(old(os.disk), os.disk, owners[slot].TargetName(), input)
      ensures os.quiet && !replaced ==> os.disk.names == old(os.disk).names
    {
      hide Books, Authorities, Denials, WriteOnce, Keeps, Lease.Ok, Kept, Published;
      slot, replaced := MAX_OWNERS, false;
      NoChange();
      if version != ABI_VERSION { return ABI_MISMATCH, slot, replaced; }
      if input == [] || |input| > MAX_BYTES { return INVALID_INPUT, slot, replaced; }
      var i := Find(owner);
      if i == MAX_OWNERS { return INVALID_INPUT, slot, replaced; }
      var lease := owners[i];
      if ticket == 0 || lease.ticket != ticket || (lease.kind != 3) != credential { return INVALID_INPUT, slot,
          replaced; }
      slot := i;
      status, replaced := CommitOn(i, input);
    }

    method CommitOn(i: nat, input: Bytes) returns (status: int, ghost replaced: bool)
      requires Valid() && i < |owners| && owners[i] != null && owners[i].ticket != 0
      modifies Repr()
      ensures Valid() && Progress() && owners == old(owners) && issued == old(issued)
      ensures owners[i].ticket == 0 && owners[i].kind == old(owners[i].kind)
      ensures if replaced then status in {OK, COMMIT_UNKNOWN}
              else status != OK && (os.honest ==> status != COMMIT_UNKNOWN)
      ensures status == OK ==> Uses(owners[i].token)
      ensures os.quiet ==>
                Kept(old(os.disk), os.disk)
                || Published(old(os.disk), os.disk, owners[i].TargetName(), input)
      ensures status == OK && os.quiet ==> Published(old(os.disk), os.disk, owners[i].TargetName(), input)
      ensures os.quiet && !replaced ==> os.disk.names == old(os.disk).names
    {
      hide Books, Balanced, Lease.Ok, Lease.Held, Backed, Covered, WriteOnce, Kept, Published, Denials, DenialsBut;
      var lease := owners[i];
      status, replaced := AssociationFiles.Commit(os, lease, input);
      ConcludePlain(i);
      Note(i, status == OK);
      PublishedKeeps(old(os.disk), os.disk, lease.TargetName(), input);
    }

    method Abort(version: int, owner: nat, ticket: nat, credential: bool) returns (status: int, ghost slot: nat)
      requires Valid()
      modifies Repr()
      ensures Valid() && Progress() && owners == old(owners) && issued == old(issued) && slot <= MAX_OWNERS
      ensures slot == MAX_OWNERS ==>
        && status in {ABI_MISMATCH, INVALID_INPUT}
        && (version == ABI_VERSION ==> forall i | 0 <= i < MAX_OWNERS :: !old(Accepts(i, owner, ticket, credential)))
      ensures slot < MAX_OWNERS ==> && old(Accepts(slot, owner, ticket, credential)) && owners[slot].ticket == 0
                                    && owners[slot].target == Null && (status != OK ==> owner in condemned)
      ensures os.quiet ==> os.disk == old(os.disk)
    {
      hide Books, Authorities, WriteOnce, Keeps, Lease.Ok;
      slot := MAX_OWNERS;
      NoChange();
      if version != ABI_VERSION { return ABI_MISMATCH, slot; }
      var i := Find(owner);
      if i == MAX_OWNERS { return INVALID_INPUT, slot; }
      var lease := owners[i];
      if ticket == 0 || lease.ticket != ticket || (lease.kind != 3) != credential { return INVALID_INPUT, slot; }
      slot := i;
      status := AbortOn(i);
    }

    method AbortOn(i: nat) returns (status: int)
      requires Valid() && i < |owners| && owners[i] != null && owners[i].ticket != 0
      modifies Repr()
      ensures Valid() && Progress() && owners == old(owners) && issued == old(issued)
      ensures owners[i].ticket == 0 && owners[i].target == Null && (status != OK ==> owners[i].token in condemned)
      ensures os.quiet ==> os.disk == old(os.disk)
    {
      hide Books, Balanced, Lease.Held, Backed, Covered, WriteOnce, DenialsBut;
      var lease := owners[i];
      status := AssociationFiles.Abort(os, lease);
      ConcludePlain(i);
      Note(i, false);
      if os.quiet { WriteOnceSelf(os.disk); }
    }

    // ----- the lease itself

    /** A denied lease is not looked at. For any other the answer is what the looks say: OK if
        and only if the user is known and every pin of the chain was found unchanged. */
    twostate predicate Inspected(i: nat, status: int)
      requires i < |old(owners)| && old(owners)[i] != null
      reads os`looks
    {
      var lease, looks := old(owners)[i], Since(os.looks, |old(os.looks)|);
      var pins := old(lease.pins);
      if old(lease.denied) then status == UNAVAILABLE && looks == []
      else if status == OK then Verified(looks, pins) && Chained(pins, lease.role) && |pins| == lease.PinsNeeded()
      else Doubted(looks, pins) && status == Refusal(looks[|looks| - 1]).Caught()
    }

    /** Is everything the lease pins still what it was? */
    method Validate(version: int, token: nat) returns (status: int, ghost slot: nat)
      requires Valid()
      modifies Repr()
      ensures Valid() && Progress() && owners == old(owners) && issued == old(issued) && slot <= MAX_OWNERS
      ensures slot == MAX_OWNERS ==> status in {ABI_MISMATCH, INVALID_INPUT}
      ensures slot < MAX_OWNERS ==> IsLease(slot, token) && if status == OK then Uses(token) else token in condemned
      ensures slot < MAX_OWNERS ==> Inspected(slot, status)
      ensures os.quiet ==> os.disk == old(os.disk)
    {
      hide Books, Authorities, Denials, WriteOnce, Keeps, Lease.Ok, Chained, Verified, Doubted, Since;
      slot := MAX_OWNERS;
      NoChange();
      if version !in {2, ABI_VERSION} { return ABI_MISMATCH, slot; }
      var i := Find(token);
      if i == MAX_OWNERS { return INVALID_INPUT, slot; }
      slot := i;
      status := ValidateOn(i);
    }

    method ValidateOn(i: nat) returns (status: int)
      requires Valid() && i < |owners| && owners[i] != null
      modifies Repr()
      ensures Valid() && Progress() && owners == old(owners) && issued == old(issued)
      ensures if status == OK then Uses(owners[i].token) else owners[i].token in condemned
      ensures Inspected(i, status)
      ensures os.quiet ==> os.disk == old(os.disk)
    {
      hide Backed, Covered, WriteOnce, DenialsBut, PinCount, ReceiptCount, ReadCount, Owed, Chained, Verified, Doubted,
          Since;
      var lease := owners[i];
      var r, sid := Check(os, lease);
      status := r.Caught();
      ConcludePlain(i);
      Note(i, status == OK);
      if os.quiet { WriteOnceSelf(os.disk); }
    }

    /** Releases everything the lease holds. The lease leaves the table unless a close
        failed: then it stays, quarantined, and its handles are never touched again. */
    method Close(version: int, token: nat) returns (status: int)
      requires Valid()
      modifies Repr()
      ensures Valid() && Progress() && issued == old(issued)
      ensures status == OK ==> forall i | 0 <= i < MAX_OWNERS :: !IsLease(i, token)
      ensures status in {OK, UNAVAILABLE} ==> token in condemned
      ensures forall i | 0 <= i < MAX_OWNERS :: owners[i] == old(owners)[i] || (owners[i] == null && status == OK)
      ensures os.quiet ==> os.disk == old(os.disk)
    {
      hide Books, Authorities, WriteOnce, Keeps;
      NoChange();
      if version !in {2, ABI_VERSION} { return ABI_MISMATCH; }
      var i := Find(token);
      if i == MAX_OWNERS { return INVALID_INPUT; }
      if owners[i].quarantined { return UNAVAILABLE; }
      var ok := ReleaseOn(i);
      status := if ok then OK else UNAVAILABLE;
    }

    /** A lease that is removed leaves no handle behind; nor does one that stays. */
    method ReleaseOn(i: nat) returns (ok: bool)
      requires TableBut(i) && !owners[i].settled && Books() && Authorities() && DenialsBut(i)
      modifies Repr()
      ensures Valid() && Progress() && issued == old(issued)
      ensures if ok then owners == old(owners)[i := null] else owners == old(owners) && owners[i].quarantined
      ensures old(owners)[i].token in condemned && forall k: nat :: old(owners)[i].Held(k) == 0
      ensures os.quiet ==> os.disk == old(os.disk)
    {
      hide Books, Balanced, Lease.Held, Backed, Covered, WriteOnce, Cleared, Denials, DenialsBut;
      var lease := owners[i];
      ok := Release(os, lease);
      ConcludeRelease(i);
      Note(i, false);
      if ok { Remove(i); }
      if os.quiet { WriteOnceSelf(os.disk); }
    }

    lemma BooksWithout(i: nat)
      requires i < |owners| && owners[i] != null && Books() && forall k: nat :: owners[i].Held(k) == 0
      ensures forall k: nat :: Owed(os.handles, k) == TableHeld(owners[i := null], k)
    {
      hide Lease.Held, Owed, TableHeld;
      forall k: nat ensures Owed(os.handles, k) == TableHeld(owners[i := null], k) {
        TableHeldUpdate(owners, i, null, k);
      }
    }

    /** Takes a lease that holds nothing out of the table. */
    method Remove(i: nat)
      requires TableBut(i) && Books() && Authorities() && Denials()
      requires forall k: nat :: owners[i].Held(k) == 0
      modifies this`owners
      ensures Valid() && owners == old(owners)[i := null]
    {
      hide Lease.Held, Lease.Ok, Owed, Backed, Covered, TableHeld, Sealed;
      BooksWithout(i);
      owners := owners[i := null];
    }

    /** The lease has its whole chain of pins, and the last looks of the call found every
        one unchanged for the user that was asked for first. */
    ghost predicate Pinned(lease: Lease?, before: seq<Look>)
      reads os`looks, lease
    {
      && lease != null && |lease.pins| == (if lease.role == APP then 9 else 5) && Chained(lease.pins, lease.role)
      && PinnedAtLast(os.looks, |before|, lease.pins)
    }

    /** Builds a lease in a free slot. A token is spent on every attempt that gets that
        far; a failed one leaves nothing in the table but, if a close failed, a
        quarantined lease. */
    method Acquire(version: int, role: int) returns (status: int, token: nat)
      requires Valid()
      modifies Repr()
      ensures Valid() && Progress() && Grown() && issued == old(issued)
      ensures token != 0 <==> status == OK
      ensures status == OK ==> && token == old(nextToken) && role in {APP, BRIDGE} && token !in condemned
                               && exists i | 0 <= i < MAX_OWNERS ::
                                    IsLease(i, token) && owners[i].role == role && old(owners)[i] == null
                                    && Pinned(owners[i], old(os.looks))
      ensures status != OK ==> forall i | 0 <= i < MAX_OWNERS ::
        owners[i] == old(owners)[i] || (old(owners)[i] == null && owners[i] != null && owners[i].quarantined)
      ensures os.quiet ==> os.disk == old(os.disk)
    {
      hide Books, Authorities, Denials, WriteOnce, Keeps, Chained, PinnedAtLast;
      token := 0;
      NoChange();
      if version !in {2, ABI_VERSION} { return ABI_MISMATCH, token; }
      if role !in {APP, BRIDGE} { return INVALID_INPUT, token; }
      var slot := 0;
      while slot < MAX_OWNERS && owners[slot] != null
        invariant slot <= MAX_OWNERS
      {
        slot := slot + 1;
      }
      if slot == MAX_OWNERS || nextToken > INT64_MAX { return RESOURCE_LIMIT, token; }
      var exhausted: bool := *;
      if exhausted { return RESOURCE_LIMIT, token; }
      status, token := AcquireAt(slot, role);
    }

    /** Builds the pins of a lease that was just put into the table. */
    method Build(i: nat) returns (status: int, token: nat)
      requires TableBut(i) && Books() && Authorities() && Denials()
      requires owners[i].pins == [] && !owners[i].settled && !owners[i].denied && !owners[i].quarantined
          && owners[i].ticket == 0
      requires owners[i].temporary == owners[i].target == Null
      modifies Repr()
      ensures Valid() && Progress() && issued == old(issued)
      ensures status == OK ==> Pinned(owners[i], old(os.looks))
      ensures if status == OK then owners == old(owners) && token == owners[i].token && token !in condemned
              else token == 0 && (owners == old(owners)[i := null] || (owners == old(owners) && owners[i].quarantined))
      ensures os.quiet ==> os.disk == old(os.disk)
    {
      hide Books, Balanced, Lease.Held, Backed, Covered, WriteOnce, Cleared, Denials, DenialsBut, KeepsDiscovery,
          Chained,
          PinnedAtLast;
      var lease := owners[i];
      var r := AcquirePins(os, lease, initialize);
      status := r.Caught();
      ConcludeBuild(i);
      if os.quiet { WriteOnceSelf(os.disk); }
      token := 0;
      if status == OK {
        Note(i, false);
        return status, lease.token;
      }
      var ok := ReleaseOn(i);
    }

    method AcquireAt(slot: nat, role: int) returns (status: int, token: nat)
      requires Valid() && slot < MAX_OWNERS && owners[slot] == null && role in {APP, BRIDGE}
      modifies Repr()
      ensures Valid() && Progress() && issued == old(issued)
      ensures if status == OK then token == old(nextToken) && token !in condemned && IsLease(slot, token)
          && owners[slot].role == role
              else token == 0 && (owners[slot] == null || owners[slot].quarantined)
      ensures status == OK ==> Pinned(owners[slot], old(os.looks))
      ensures owners == old(owners)[slot := owners[slot]] && (owners[slot] != null ==> fresh(owners[slot]))
      ensures os.quiet ==> os.disk == old(os.disk)
    {
      hide PinCount, ReceiptCount, ReadCount, Owed, WriteOnce, Covered, TableHeld, Chained, PinnedAtLast;
      var lease := new Lease(nextToken, role);
      forall k: nat ensures Owed(os.handles, k) == TableHeld(owners[slot := lease], k) {
        NothingHeld([], lease.receipts, lease.readers, k);
        TableHeldUpdate(owners, slot, lease, k);
        assert Owed(os.handles, k) == TableHeld(owners, k);
      }
      nextToken := nextToken + 1;
      owners := owners[slot := lease];
      status, token := Build(slot);
    }

    // ----- one-shot exchange

    /** Creates a new exchange file and grants its creator a receipt on it. */
    method ExchangeCreate(version: int, owner: nat, kind: int, id: Bytes, input: Bytes)
      returns (status: int, receipt: nat, ghost slot: nat)
      requires Valid() && |id| == 16
      modifies Repr()
      ensures Valid() && Progress() && owners == old(owners) && os.deletes == old(os.deletes)
      ensures receipt != 0 <==> status == OK
      ensures status == OK ==> && ExchangeFiles.Header(kind, id, input) && Uses(owner) && slot < SLOTS
                               && exists file :: Granted(receipt, Deletion(owner, false, slot, file, []))
      ensures status == OK && os.quiet ==> Stores(os.disk, Name.Exchange(kind, id), input)
      ensures status != OK ==> issued == old(issued)
    {
      hide Books, Authorities, Denials, WriteOnce, Keeps, Lease.Ok, ExchangeFiles.Header;
      receipt, slot := 0, 0;
      NoChange();
      if input == [] || |input| > MAX_BYTES { return INVALID_INPUT, receipt, slot; }
      if version != ABI_VERSION { return ABI_MISMATCH, receipt, slot; }
      if ExchangeFiles.Cap(kind) == 0 || !ExchangeFiles.Header(kind, id, input) { return INVALID_INPUT, receipt, slot; }
      var i := Find(owner);
      if i == MAX_OWNERS { return INVALID_INPUT, receipt, slot; }
      status, receipt, slot := CreateOn(i, kind, id, input);
    }

    method CreateOn(i: nat, kind: int, id: Bytes, input: Bytes) returns (status: int, receipt: nat, ghost slot: nat)
      requires Valid() && i < |owners| && owners[i] != null && |id| == 16
      modifies Repr()
      ensures Valid() && Progress() && owners == old(owners) && os.deletes == old(os.deletes)
      ensures receipt != 0 <==> status == OK
      ensures status == OK ==> && Uses(owners[i].token) && slot < SLOTS
                               && exists file :: Granted(receipt, Deletion(owners[i].token, false, slot, file, []))
      ensures status == OK && os.quiet ==> Stores(os.disk, Name.Exchange(kind, id), input)
      ensures status != OK ==> issued == old(issued)
    {
      hide Books, Balanced, Lease.Ok, Lease.Held, WriteOnce, KeepsDiscovery, Denials, DenialsBut;
      var lease := owners[i];
      assert Backed(lease, issued, os.deletes);
      status, receipt, slot := ExchangeFiles.Create(os, lease, kind, id, input, nextTicket);
      if status == OK {
        ghost var grant := Deletion(lease.token, false, slot, lease.receipts[slot].identity.id, []);
        nextTicket, issued := nextTicket + 1, issued[receipt := grant];
        assert Granted(receipt, grant);
      }
      Conclude(i);
      Note(i, status == OK);
      DiscoveryKept(old(os.disk), os.disk);
    }

    /** Reads an exchange file; with begin, the reader also gets a ticket on exactly the
        bytes it was handed. */
    method ExchangeRead(version: int, owner: nat, kind: int, id: Bytes, capacity: nat, begin: bool)
      returns (status: int, bytes: Bytes, ticket: nat, nonce: Bytes, ghost slot: nat)
      requires Valid() && |id| == 16
      modifies Repr()
      ensures Valid() && Progress() && owners == old(owners) && os.deletes == old(os.deletes)
          && os.creations == old(os.creations)
      ensures if status == OK then ExchangeFiles.Header(kind, id, bytes) && |bytes| <= capacity && Uses(owner)
          else bytes == []
      ensures ticket != 0 <==> status == OK && begin
      ensures ticket != 0 ==> slot < SLOTS && exists file :: Granted(ticket, Deletion(owner, true, slot, file, bytes))
      ensures ticket == 0 ==> issued == old(issued)
      ensures status == OK && os.quiet ==> Holds(os.disk, Name.Exchange(kind, id), bytes)
      ensures os.quiet ==> os.disk == old(os.disk)
    {
      hide Books, Authorities, Denials, WriteOnce, Keeps, Lease.Ok, ExchangeFiles.Header;
      bytes, ticket, nonce, slot := [], 0, [], 0;
      NoChange();
      if capacity == 0 || capacity > MAX_BYTES { return INVALID_INPUT, bytes, ticket, nonce, slot; }
      if version != ABI_VERSION { return ABI_MISMATCH, bytes, ticket, nonce, slot; }
      if ExchangeFiles.Cap(kind) == 0 || capacity != ExchangeFiles.Cap(kind) { return INVALID_INPUT, bytes, ticket,
          nonce, slot; }
      var i := Find(owner);
      if i == MAX_OWNERS { return INVALID_INPUT, bytes, ticket, nonce, slot; }
      status, bytes, ticket, nonce, slot := ReadOn(i, kind, id, capacity, begin);
    }

    method ReadOn(i: nat, kind: int, id: Bytes, capacity: nat, begin: bool)
      returns (status: int, bytes: Bytes, ticket: nat, nonce: Bytes, ghost slot: nat)
      requires Valid() && i < |owners| && owners[i] != null && |id| == 16
      modifies Repr()
      ensures Valid() && Progress() && owners == old(owners) && os.deletes == old(os.deletes)
          && os.creations == old(os.creations)
      ensures if status == OK then ExchangeFiles.Header(kind, id, bytes) && |bytes| <= capacity
          && Uses(owners[i].token) else bytes == []
      ensures ticket != 0 <==> status == OK && begin
      ensures ticket != 0 ==> slot < SLOTS && exists file ::
          Granted(ticket, Deletion(owners[i].token, true, slot, file, bytes))
      ensures ticket == 0 ==> issued == old(issued)
      ensures status == OK && os.quiet ==> Holds(os.disk, Name.Exchange(kind, id), bytes)
      ensures os.quiet ==> os.disk == old(os.disk)
    {
      hide Books, Balanced, Lease.Ok, Lease.Held, WriteOnce, KeepsDiscovery, Denials, DenialsBut, ExchangeFiles.Header;
      var lease := owners[i];
      assert Backed(lease, issued, os.deletes);
      status, bytes, ticket, nonce, slot := ExchangeFiles.Reading(os, lease, kind, id, capacity, begin, nextTicket);
      if ticket != 0 {
        ghost var grant := Deletion(lease.token, true, slot, lease.readers[slot].identity.id, bytes);
        nextTicket, issued := nextTicket + 1, issued[ticket := grant];
        assert Granted(ticket, grant);
      }
      Conclude(i);
      Note(i, status == OK);
      DiscoveryKept(old(os.disk), os.disk);
    }

    /** At most one deletion was asked for: on this serial, through a handle opened for it. */
    twostate predicate Spends(serial: nat)
      reads os
    {
      os.deletes == old(os.deletes)
      || exists h: Handle, seen ::
           os.deletes == old(os.deletes) + [DeleteRequest(serial, h, seen)] && h.Live? && h.id >= old(os.handles.next)
    }

    /** No lease carries the serial. */
    ghost predicate Retired(serial: nat)
      reads this, owners
    {
      forall i, j | 0 <= i < |owners| && owners[i] != null ::
        && (0 <= j < |owners[i].receipts| ==> owners[i].receipts[j].token != serial)
        && (0 <= j < |owners[i].readers| ==> owners[i].readers[j].token != serial)
    }

    /** The owner's lease carries this receipt. */
    ghost predicate CarriesReceipt(owner: nat, serial: nat)
      reads this, owners
    {
      exists i, j | 0 <= i < |owners| && IsLease(i, owner) && 0 <= j < |owners[i].receipts| ::
          owners[i].receipts[j].token == serial
    }

    /** The owner's lease carries this reader's ticket with this nonce, and is not quarantined. */
    ghost predicate CarriesTicket(owner: nat, serial: nat, nonce: Bytes)
      reads this, owners
    {
      exists i, j | 0 <= i < |owners| && IsLease(i, owner) && 0 <= j < |owners[i].readers| ::
        owners[i].readers[j].token == serial && owners[i].readers[j].nonce == nonce && !owners[i].quarantined
    }

    lemma Sized(i: nat)
      requires Table() && i < |owners| && owners[i] != null
      ensures |owners[i].receipts| == |owners[i].readers| == SLOTS
    {
    }

    /** A serial that some slot carries is carried by the very slot it was granted to. */
    lemma SlotOf(serial: nat) returns (i: nat)
      requires Authorities() && serial != 0 && !Retired(serial)
      ensures serial in issued && issued[serial].Deletion? && i < |owners| && owners[i] != null
          && owners[i].token == issued[serial].owner
      ensures if issued[serial].reader then issued[serial].slot < |owners[i].readers|
          && owners[i].readers[issued[serial].slot].token == serial
              else issued[serial].slot < |owners[i].receipts| && owners[i].receipts[issued[serial].slot].token == serial
    {
      var l, j :| 0 <= l < |owners| && owners[l] != null &&
                  ((0 <= j < |owners[l].receipts| && owners[l].receipts[j].token == serial)
                   || (0 <= j < |owners[l].readers| && owners[l].readers[j].token == serial));
      i := l;
      assert Backed(owners[i], issued, os.deletes);
    }

    /** A granted serial whose slot no longer carries it is carried by none. */
    lemma Gone(serial: nat, i: nat)
      requires Table() && Authorities() && serial in issued && issued[serial].Deletion?
      requires i < |owners| && owners[i] != null && owners[i].token == issued[serial].owner
          && issued[serial].slot < SLOTS
      requires if issued[serial].reader then owners[i].readers[issued[serial].slot].token != serial
               else owners[i].receipts[issued[serial].slot].token != serial
      ensures Retired(serial)
    {
      if !Retired(serial) { var l := SlotOf(serial); }
    }

    /** The one deletion a receipt is good for, or nothing at all if no slot had it. */
    twostate lemma ReceiptSpent(use: Spending)
      requires issued == old(issued) && owners == old(owners) && use.lease < |owners| && owners[use.lease] != null
          && use.serial != 0
      requires old(Backed(owners[use.lease], issued, os.deletes) && Covered(os.handles, issued, os.deletes))
          && Keeps(old(os.handles), os.handles)
      requires owners[use.lease].ticket == old(owners[use.lease].ticket)
          && owners[use.lease].readers == old(owners[use.lease].readers)
      requires |owners[use.lease].receipts| == |old(owners[use.lease].receipts)| == SLOTS && use.slot <= SLOTS
      requires use.slot == SLOTS ==>
        os.deletes == old(os.deletes) && owners[use.lease].receipts == old(owners[use.lease].receipts)
      requires use.slot < SLOTS ==>
        && old(owners[use.lease].receipts)[use.slot].token == use.serial
        && owners[use.lease].receipts[use.slot].token == 0
        && owners[use.lease].receipts
           == old(owners[use.lease].receipts)[use.slot := owners[use.lease].receipts[use.slot]]
        && ExchangeFiles.Requested(os, use.serial, old(owners[use.lease].receipts)[use.slot].identity.id,
            ExchangeFiles.AnyContent)
      ensures Backed(owners[use.lease], issued, os.deletes) && Covered(os.handles, issued, os.deletes)
      ensures Spends(use.serial) && old(os.deletes) <= os.deletes
      ensures forall d | |old(os.deletes)| <= d < |os.deletes| :: os.deletes[d].serial == use.serial
      ensures use.slot < SLOTS ==>
        use.serial in issued && issued[use.serial].Deletion? && !issued[use.serial].reader
        && issued[use.serial].owner == owners[use.lease].token && issued[use.serial].slot == use.slot
    {
    }

    /** The one deletion a reader's ticket is good for, or nothing at all. */
    twostate lemma TicketSpent(use: Spending)
      requires issued == old(issued) && owners == old(owners) && use.lease < |owners| && owners[use.lease] != null
          && use.serial != 0
      requires old(Backed(owners[use.lease], issued, os.deletes) && Covered(os.handles, issued, os.deletes))
          && Keeps(old(os.handles), os.handles)
      requires owners[use.lease].ticket == old(owners[use.lease].ticket)
          && owners[use.lease].receipts == old(owners[use.lease].receipts)
      requires |owners[use.lease].readers| == |old(owners[use.lease].readers)| == SLOTS && use.slot <= SLOTS
      requires use.slot == SLOTS ==>
        os.deletes == old(os.deletes) && owners[use.lease].readers == old(owners[use.lease].readers)
      requires use.slot < SLOTS ==>
        && old(owners[use.lease].readers)[use.slot].token == use.serial
        && owners[use.lease].readers[use.slot].token == 0
        && owners[use.lease].readers == old(owners[use.lease].readers)[use.slot := owners[use.lease].readers[use.slot]]
        && ExchangeFiles.Requested(os, use.serial, old(owners[use.lease].readers)[use.slot].identity.id,
                                   ExchangeFiles.Exactly(old(owners[use.lease].readers)[use.slot].bytes))
      ensures Backed(owners[use.lease], issued, os.deletes) && Covered(os.handles, issued, os.deletes)
      ensures Spends(use.serial) && old(os.deletes) <= os.deletes
      ensures forall d | |old(os.deletes)| <= d < |os.deletes| :: os.deletes[d].serial == use.serial
      ensures use.slot < SLOTS ==>
        use.serial in issued && issued[use.serial].Deletion? && issued[use.serial].reader
        && issued[use.serial].owner == owners[use.lease].token && issued[use.serial].slot == use.slot
    {
    }

    /** The creator's one attempt to delete what it created. */
    method ExchangeCleanup(version: int, owner: nat, receipt: nat) returns (status: int, ghost slot: nat)
      requires Valid()
      modifies Repr()
      ensures Valid() && Progress() && owners == old(owners) && issued == old(issued)
          && os.creations == old(os.creations)
      ensures Spends(receipt) && (os.deletes != old(os.deletes) ==> owner !in old(condemned))
      ensures slot < SLOTS <==> version == ABI_VERSION && receipt != 0 && old(CarriesReceipt(owner, receipt))
      ensures if slot < SLOTS then Retired(receipt)
              else status in {ABI_MISMATCH, INVALID_INPUT} && os.deletes == old(os.deletes)
    {
      hide Books, Authorities, Denials, WriteOnce, Keeps, Retired;
      slot := SLOTS;
      NoChange();
      if version != ABI_VERSION { return ABI_MISMATCH, slot; }
      var i := Find(owner);
      if i == MAX_OWNERS || receipt == 0 { return INVALID_INPUT, slot; }
      status, slot := CleanupOn(i, receipt);
    }

    method CleanupOn(i: nat, receipt: nat) returns (status: int, ghost slot: nat)
      requires Valid() && i < |owners| && owners[i] != null && receipt != 0
      modifies Repr()
      ensures Valid() && Progress() && owners == old(owners) && issued == old(issued)
          && os.creations == old(os.creations)
      ensures Spends(receipt) && (os.deletes != old(os.deletes) ==> owners[i].token !in old(condemned))
      ensures slot <= SLOTS
      ensures slot == SLOTS ==> status == INVALID_INPUT && os.deletes == old(os.deletes)
                                && forall j | 0 <= j < SLOTS :: old(owners[i].receipts)[j].token != receipt
      ensures slot < SLOTS ==> && old(owners[i].receipts)[slot].token == receipt && Retired(receipt)
                               && (status == OK && os.quiet ==> old(owners[i].receipts)[slot].name !in os.disk.names)
    {
      hide Books, Balanced, Lease.Held, Lease.Ok, WriteOnce, KeepsDiscovery, Backed, Covered, Denials, DenialsBut,
          Retired, Spends, ExchangeFiles.Requested;
      var lease := owners[i];
      assert Backed(lease, issued, os.deletes);
      Sized(i);
      status, slot := ExchangeFiles.Cleanup(os, lease, receipt);
      ReceiptSpent(Spending(i, slot, receipt));
      Conclude(i);
      Note(i, false);
      if slot < SLOTS { Gone(receipt, i); }
      DiscoveryKept(old(os.disk), os.disk);
    }

    /** The reader's one use of its ticket: consumed, or released. */
    method ExchangeSettle(version: int, owner: nat, serial: nat, nonce: Bytes, consume: bool)
        returns (status: int, ghost slot: nat)
      requires Valid()
      modifies Repr()
      ensures Valid() && Progress() && owners == old(owners) && issued == old(issued)
          && os.creations == old(os.creations)
      ensures Spends(serial) && (os.deletes != old(os.deletes) ==> consume && owner !in old(condemned))
      ensures slot < SLOTS <==> version == ABI_VERSION && serial != 0 && old(CarriesTicket(owner, serial, nonce))
      ensures if slot < SLOTS then Retired(serial)
              else status in {ABI_MISMATCH, INVALID_INPUT, UNAVAILABLE} && os.deletes == old(os.deletes)
      ensures status == COMMIT_UNKNOWN ==> owner in condemned
    {
      hide Books, Authorities, Denials, WriteOnce, Keeps, Retired;
      slot := SLOTS;
      NoChange();
      if version != ABI_VERSION { return ABI_MISMATCH, slot; }
      var i := Find(owner);
      if i == MAX_OWNERS || serial == 0 { return INVALID_INPUT, slot; }
      status, slot := SettleOn(i, serial, nonce, consume);
    }

    method SettleOn(i: nat, serial: nat, nonce: Bytes, consume: bool) returns (status: int, ghost slot: nat)
      requires Valid() && i < |owners| && owners[i] != null && serial != 0
      modifies Repr()
      ensures Valid() && Progress() && owners == old(owners) && issued == old(issued)
          && os.creations == old(os.creations)
      ensures Spends(serial) && (os.deletes != old(os.deletes) ==> consume && owners[i].token !in old(condemned))
      ensures slot <= SLOTS
      ensures slot == SLOTS ==> status in {INVALID_INPUT, UNAVAILABLE} && os.deletes == old(os.deletes)
                                && forall j | 0 <= j < SLOTS ::
                                  old(owners[i].quarantined) || old(owners[i].readers)[j].token != serial
                                      || old(owners[i].readers)[j].nonce != nonce
      ensures slot < SLOTS ==> && old(owners[i].readers)[slot].token == serial
                               && old(owners[i].readers)[slot].nonce == nonce
                               && !old(owners[i].quarantined) && Retired(serial)
                               && (status == OK && consume && os.quiet ==>
                                   old(owners[i].readers)[slot].name !in os.disk.names)
      ensures status == COMMIT_UNKNOWN ==> owners[i].token in condemned
    {
      hide Books, Balanced, Lease.Held, Lease.Ok, WriteOnce, KeepsDiscovery, Backed, Covered, Denials, DenialsBut,
          Retired, Spends, ExchangeFiles.Requested;
      var lease := owners[i];
      assert Backed(lease, issued, os.deletes);
      Sized(i);
      status, slot := ExchangeFiles.Settle(os, lease, serial, nonce, consume);
      TicketSpent(Spending(i, slot, serial));
      Conclude(i);
      Note(i, false);
      if slot < SLOTS { Gone(serial, i); }
      DiscoveryKept(old(os.disk), os.disk);
    }

    // ----- discovery

    /** Publishes under a fixed discovery name. A write-once name that is bound is never
        rewritten: the same bytes succeed without a write, other bytes are refused. */
    method DiscoveryPublish(version: int, owner: nat, kind: int, input: Bytes)
        returns (status: int, ghost renamed: bool)
      requires Valid()
      modifies Repr()
      ensures Valid() && Progress() && owners == old(owners) && issued == old(issued) && os.deletes == old(os.deletes)
      ensures renamed ==> status in {OK, COMMIT_UNKNOWN} && (status == COMMIT_UNKNOWN ==> owner in condemned)
      ensures status == OK ==> && Uses(owner) && 0 < |input| <= DiscoveryFiles.Cap(kind)
                               && (kind != 2 ==> |input| == DiscoveryFiles.Cap(kind))
      ensures os.quiet ==> DiscoveryFiles.MayPublish(old(os.disk), os.disk, kind, input)
      ensures os.quiet && !renamed ==> Kept(old(os.disk), os.disk)
      ensures os.quiet && kind != DiscoveryFiles.ENDPOINT && Name.Discovery(kind) in old(os.disk).names ==>
          os.disk == old(os.disk)
      ensures os.quiet && status == OK ==> Holds(os.disk, Name.Discovery(kind), input)
      ensures status == OK && kind == DiscoveryFiles.ENDPOINT ==> renamed
      ensures status == OK && os.quiet ==> if renamed then Stores(os.disk, Name.Discovery(kind), input)
                                           else Name.Discovery(kind) in old(os.disk).names
    {
      hide Books, Authorities, Denials, WriteOnce, Keeps, Lease.Ok;
      renamed := false;
      NoChange();
      if version != ABI_VERSION { return ABI_MISMATCH, renamed; }
      if DiscoveryFiles.Cap(kind) == 0 || input == [] || |input| > DiscoveryFiles.Cap(kind)
         || (kind != 2 && |input| != DiscoveryFiles.Cap(kind)) {
        return INVALID_INPUT, renamed;
      }
      var i := Find(owner);
      if i == MAX_OWNERS { return INVALID_INPUT, renamed; }
      var bytes;
      status, bytes, renamed := OperateOn(i, kind, true, input);
    }

    /** Reads the file under a fixed discovery name. */
    method DiscoveryRead(version: int, owner: nat, kind: int, capacity: nat) returns (status: int, bytes: Bytes)
      requires Valid()
      modifies Repr()
      ensures Valid() && Progress() && owners == old(owners) && issued == old(issued) && os.deletes == old(os.deletes)
      ensures if status == OK then Uses(owner) && 0 < |bytes| <= DiscoveryFiles.Cap(kind) == capacity else bytes == []
      ensures os.quiet ==> os.disk == old(os.disk)
      ensures os.quiet && status == OK ==> Holds(os.disk, Name.Discovery(kind), bytes)
    {
      hide Books, Authorities, Denials, WriteOnce, Keeps, Lease.Ok;
      bytes := [];
      NoChange();
      if capacity == 0 || capacity > MAX_BYTES { return INVALID_INPUT, bytes; }
      if version != ABI_VERSION { return ABI_MISMATCH, bytes; }
      if DiscoveryFiles.Cap(kind) == 0 || capacity != DiscoveryFiles.Cap(kind) { return INVALID_INPUT, bytes; }
      var i := Find(owner);
      if i == MAX_OWNERS { return INVALID_INPUT, bytes; }
      ghost var renamed;
      status, bytes, renamed := OperateOn(i, kind, false, []);
    }

    method OperateOn(i: nat, kind: int, publish: bool, input: Bytes)
        returns (status: int, bytes: Bytes, ghost renamed: bool)
      requires Valid() && i < |owners| && owners[i] != null
      modifies Repr()
      ensures Valid() && Progress() && owners == old(owners) && issued == old(issued) && os.deletes == old(os.deletes)
      ensures renamed ==> status in {OK, COMMIT_UNKNOWN} && (status == COMMIT_UNKNOWN ==> owners[i].token in condemned)
      ensures status == OK ==> Uses(owners[i].token) && (!publish ==> 0 < |bytes| <= DiscoveryFiles.Cap(kind))
      ensures publish || status != OK ==> bytes == []
      ensures os.quiet ==> if publish then DiscoveryFiles.MayPublish(old(os.disk), os.disk, kind, input)
          else os.disk == old(os.disk)
      ensures os.quiet && !renamed ==> Kept(old(os.disk), os.disk)
      ensures os.quiet && kind != DiscoveryFiles.ENDPOINT && Name.Discovery(kind) in old(os.disk).names ==>
          os.disk == old(os.disk)
      ensures os.quiet && status == OK ==> Holds(os.disk, Name.Discovery(kind), if publish then input else bytes)
      ensures status == OK && publish && kind == DiscoveryFiles.ENDPOINT ==> renamed
      ensures status == OK && publish && os.quiet ==> if renamed then Stores(os.disk, Name.Discovery(kind), input)
                                                      else Name.Discovery(kind) in old(os.disk).names
    {
      hide Books, Balanced, Lease.Ok, Lease.Held, Backed, Covered, WriteOnce, Kept, Published, Denials, DenialsBut;
      var lease := owners[i];
      status, bytes, renamed := DiscoveryFiles.Operate(os, lease, kind, publish, input);
      ConcludePlain(i);
      Note(i, status == OK);
      WriteOnceSelf(os.disk);
      PublishedKeeps(old(os.disk), os.disk, Name.Discovery(kind), input);
    }

    // ----- the end

    /** The destructor: every lease that is not quarantined is released. A failed close is
        never retried, so a quarantined lease keeps what it holds. */
    method Destroy()
      requires Valid()
      modifies Repr()
      ensures Books() && owners == old(owners)
      ensures forall i | 0 <= i < MAX_OWNERS && owners[i] != null :: old(owners[i].quarantined) ==>
          owners[i].quarantined
      ensures forall i | 0 <= i < MAX_OWNERS && owners[i] != null && !old(owners[i].quarantined) :: forall k: nat ::
          owners[i].Held(k) == 0
      ensures (forall i | 0 <= i < MAX_OWNERS && owners[i] != null :: !old(owners[i].quarantined)) ==>
                forall k: nat :: os.handles.attempts[k] == if k < os.handles.next then 1 else 0
    {
      hide PinCount, ReceiptCount, ReadCount, TableHeld, Lease.Held, Authorities, Denials;
      for i := 0 to MAX_OWNERS
        invariant owners == old(owners) && Books()
        invariant forall j | i <= j < MAX_OWNERS && owners[j] != null :: unchanged(owners[j])
        invariant forall j | 0 <= j < MAX_OWNERS && owners[j] != null :: old(owners[j].quarantined) ==>
            owners[j].quarantined
        invariant forall j | 0 <= j < i && owners[j] != null && !old(owners[j].quarantined) :: forall k: nat ::
            owners[j].Held(k) == 0
      {
        var lease := owners[i];
        if lease != null && !lease.quarantined {
          label before:
          var ok := Release(os, lease);
          BooksKept@before(i);
        }
      }
      if forall i | 0 <= i < MAX_OWNERS && owners[i] != null :: !old(owners[i].quarantined) { AllSettled(); }
    }

    /** When no lease holds a handle, every handle had its close attempt. */
    lemma AllSettled()
      requires Books() && forall i | 0 <= i < |owners| && owners[i] != null :: forall k: nat :: owners[i].Held(k) == 0
      ensures forall k: nat :: os.handles.attempts[k] == if k < os.handles.next then 1 else 0
    {
      forall k: nat ensures os.handles.attempts[k] == if k < os.handles.next then 1 else 0 {
        SumZero(Fields(owners, k));
        assert Owed(os.handles, k) == TableHeld(owners, k);
      }
    }

    /** The conservation law read off the books: one close attempt at most, and a handle
        that had none is in exactly one field of exactly one lease. */
    lemma Conservation(k: nat)
      requires Books()
      ensures os.handles.attempts[k] <= 1 && (k >= os.handles.next ==> os.handles.attempts[k] == 0)
      ensures k < os.handles.next && os.handles.attempts[k] == 0 ==>
        exists i | 0 <= i < |owners| && owners[i] != null ::
          owners[i].Held(k) == 1 && forall j | 0 <= j < |owners| && j != i && owners[j] != null ::
              owners[j].Held(k) == 0
      ensures k >= os.handles.next || os.handles.attempts[k] == 1 ==>
        forall i | 0 <= i < |owners| && owners[i] != null :: owners[i].Held(k) == 0
    {
      hide PinCount, ReceiptCount, ReadCount, Lease.Held;
      var counts := Fields(owners, k);
      assert Owed(os.handles, k) == Sum(counts);
      if Sum(counts) == 1 {
        var i := SumOne(counts);
        assert counts[i] == HeldBy(owners[i], k);
        assert forall j | 0 <= j < |owners| && j != i && owners[j] != null :: owners[j].Held(k) == counts[j];
      } else {
        SumZero(counts);
        assert forall j | 0 <= j < |owners| && owners[j] != null :: owners[j].Held(k) == counts[j];
      }
    }
  }
}
