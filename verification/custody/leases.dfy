/** The lease: everything one owner holds, and where each of its handles is stored. */
module Leases {
  import opened ObjectSeam

  const SLOTS := 32

  datatype Pin = Pin(handle: Handle, identity: ObjectInfo, owner: bool, dacl: bool)
  const NO_PIN := Pin(Null, NO_INFO, false, false)

  /** A creator's receipt: one authority to delete the file it created. */
  datatype Receipt = Receipt(token: nat, pin: Handle, identity: ObjectInfo, name: ExchangeName)
  const NO_RECEIPT := Receipt(0, Null, NO_INFO, Name.Exchange(0, []))

  /** A reader's ticket: one authority to delete the file, as long as it holds bytes. */
  datatype Read = Read(token: nat, pin: Handle, identity: ObjectInfo, name: ExchangeName,
                       nonce: Bytes, bytes: Bytes, kind: int)
  const NO_READ := Read(0, Null, NO_INFO, Name.Exchange(0, []), [], [], 0)

  /** What a chain of pins asks for: all but the known folder belong to the user, all below
      the product's own folder carry the protected entry, all but the lock are directories,
      and all lie on one volume. */
  predicate Chained(pins: seq<Pin>, role: int) {
    forall i | 0 <= i < |pins| ::
      && pins[i].handle.Live? && pins[i].owner == (i >= 1) && pins[i].dacl == (i >= 2)
      && pins[i].identity.directory == (i != if role == APP then 3 else 4)
      && pins[i].identity.id.volume == pins[0].identity.id.volume
  }

  /** One more pin of the chain. */
  lemma ChainedMore(pins: seq<Pin>, role: int, p: Pin)
    requires Chained(pins, role) && pins != [] && p.handle.Live? && p.owner && p.dacl == (|pins| >= 2)
    requires p.identity.directory == (|pins| != if role == APP then 3 else 4)
    requires p.identity.id.volume == pins[0].identity.id.volume
    ensures Chained(pins + [p], role)
  {
  }

  // ----- how often a handle is stored in a list of fields

  ghost function PinCount(pins: seq<Pin>, k: nat): nat {
    if pins == [] then 0 else PinCount(pins[..|pins| - 1], k) + Is(pins[|pins| - 1].handle, k)
  }

  ghost function ReceiptCount(s: seq<Receipt>, k: nat): nat {
    if s == [] then 0 else ReceiptCount(s[..|s| - 1], k) + Is(s[|s| - 1].pin, k)
  }

  ghost function ReadCount(s: seq<Read>, k: nat): nat {
    if s == [] then 0 else ReadCount(s[..|s| - 1], k) + Is(s[|s| - 1].pin, k)
  }

  lemma PinCountAppend(pins: seq<Pin>, p: Pin, k: nat)
    ensures PinCount(pins + [p], k) == PinCount(pins, k) + Is(p.handle, k)
  {
    assert (pins + [p])[..|pins|] == pins;
  }

  lemma {:induction false} PinCountUpdate(pins: seq<Pin>, i: nat, p: Pin, k: nat)
    requires i < |pins|
    ensures PinCount(pins[i := p], k) == PinCount(pins, k) - Is(pins[i].handle, k) + Is(p.handle, k)
  {
    var n := |pins| - 1;
    if i < n {
      PinCountUpdate(pins[..n], i, p, k);
      assert pins[i := p][..n] == pins[..n][i := p];
    } else {
      assert pins[i := p][..n] == pins[..n];
    }
  }

  lemma {:induction false} ReceiptCountUpdate(s: seq<Receipt>, i: nat, r: Receipt, k: nat)
    requires i < |s|
    ensures ReceiptCount(s[i := r], k) == ReceiptCount(s, k) - Is(s[i].pin, k) + Is(r.pin, k)
  {
    var n := |s| - 1;
    if i < n {
      ReceiptCountUpdate(s[..n], i, r, k);
      assert s[i := r][..n] == s[..n][i := r];
    } else {
      assert s[i := r][..n] == s[..n];
    }
  }

  lemma {:induction false} ReadCountUpdate(s: seq<Read>, i: nat, r: Read, k: nat)
    requires i < |s|
    ensures ReadCount(s[i := r], k) == ReadCount(s, k) - Is(s[i].pin, k) + Is(r.pin, k)
  {
    var n := |s| - 1;
    if i < n {
      ReadCountUpdate(s[..n], i, r, k);
      assert s[i := r][..n] == s[..n][i := r];
    } else {
      assert s[i := r][..n] == s[..n];
    }
  }

  lemma {:induction false} NothingHeld(pins: seq<Pin>, receipts: seq<Receipt>, readers: seq<Read>, k: nat)
    requires forall i | 0 <= i < |pins| :: !pins[i].handle.Live?
    requires forall i | 0 <= i < |receipts| :: !receipts[i].pin.Live?
    requires forall i | 0 <= i < |readers| :: !readers[i].pin.Live?
    ensures PinCount(pins, k) == ReceiptCount(receipts, k) == ReadCount(readers, k) == 0
    decreases |pins| + |receipts| + |readers|
  {
    if pins != [] { NothingHeld(pins[..|pins| - 1], [], [], k); }
    if receipts != [] { NothingHeld([], receipts[..|receipts| - 1], [], k); }
    if readers != [] { NothingHeld([], [], readers[..|readers| - 1], k); }
  }

  class Lease {
    const token: nat
    const role: int
    var pins: seq<Pin>
    var denied: bool
    var quarantined: bool
    var kind: int
    var ticket: nat
    var target: Handle
    var temporary: Handle
    var targetIdentity: ObjectInfo
    var missing: bool
    var runtimeId: string
    var exchange: Pin
    var discovery: Pin
    var receipts: seq<Receipt>
    var readers: seq<Read>
    /** The pins had their close attempts; a pin whose close failed keeps its stale value. */
    ghost var settled: bool

    constructor (token: nat, role: int)
      ensures this.token == token && this.role == role
      ensures pins == [] && !denied && !quarantined && ticket == 0 && !settled
      ensures target == Null && temporary == Null && exchange == NO_PIN && discovery == NO_PIN
      ensures receipts == seq(SLOTS, i => NO_RECEIPT) && readers == seq(SLOTS, i => NO_READ)
    {
      this.token, this.role := token, role;
      pins, denied, quarantined, kind, ticket := [], false, false, 3, 0;
      target, temporary, targetIdentity, missing, runtimeId := Null, Null, NO_INFO, false, "";
      exchange, discovery := NO_PIN, NO_PIN;
      receipts, readers := seq(SLOTS, i => NO_RECEIPT), seq(SLOTS, i => NO_READ);
      settled := false;
    }

    /** How many fields of this lease the handle k is stored in. */
    ghost function Held(k: nat): nat
      reads this
    {
      (if settled then 0 else PinCount(pins, k))
      + Is(target, k) + Is(temporary, k) + Is(exchange.handle, k) + Is(discovery.handle, k)
      + ReceiptCount(receipts, k) + ReadCount(readers, k)
    }

    /** The transaction kind belongs to the role: 4 is the bridge's, 1 to 3 are the app's. */
    predicate KindFits()
      reads this
    {
      if role == APP then kind in {1, 2, 3} else kind == 4
    }

    /** What holds of a lease between two calls. */
    ghost predicate Ok()
      reads this
    {
      && |receipts| == SLOTS && |readers| == SLOTS
      && role in {APP, BRIDGE}
      && temporary == Null
      && (ticket == 0 ==> target == Null)
      && (ticket != 0 ==> KindFits())
      && (!denied ==> |pins| == PinsNeeded() && Chained(pins, role))
      && (quarantined ==> denied)
      && (settled ==> quarantined)
    }

    function PinsNeeded(): nat {
      if role == APP then 9 else 5
    }

    /** Which pin is the directory of the transaction's file. */
    function Directory(): nat
      reads this
    {
      if kind == 3 then 6 else if kind == 4 then 3 else 5
    }

    /** The fixed name the transaction is about. */
    function TargetName(): Name
      reads this
    {
      if kind == 3 then Name.Association else Name.Credential(kind)
    }
  }
}
