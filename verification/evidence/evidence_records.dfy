/** Evidence records: what is kept of a run, how one record names the one before it, and
    the medium that accepts them only in a chain. */
module EvidenceRecords {
  import opened WireBytes
  import opened Settlements
  import opened PermissionLog

  datatype Stage =
    | ControllerStarted | MeasuredStage | CreateIntent | CustodyAccepted | Approval | IssueIntent | Issued
    | RequestIntent
    | Requested | BurnIntent | ConsumedStage | JournalIntent | JournalUpdated | CreateAttempt | ProcessIdentity
    | CustodyAcknowledged | ResumeAttempt | ResumedStage | Ipc | ExitObserved | HandlesSettled | RecoveryRequired
    | Final

  function StageNumber(s: Stage): (n: nat)
    ensures n <= 22
  {
    match s
    case ControllerStarted => 0 case MeasuredStage => 1 case CreateIntent => 2 case CustodyAccepted => 3
    case Approval => 4
    case IssueIntent => 5 case Issued => 6 case RequestIntent => 7 case Requested => 8 case BurnIntent => 9
    case ConsumedStage => 10 case JournalIntent => 11 case JournalUpdated => 12 case CreateAttempt => 13
    case ProcessIdentity => 14 case CustodyAcknowledged => 15 case ResumeAttempt => 16 case ResumedStage => 17
    case Ipc => 18 case ExitObserved => 19 case HandlesSettled => 20 case RecoveryRequired => 21 case Final => 22
  }

  datatype Failure = NoFailure | Gate | TargetFailure | MeasurementFailure | CustodyFailure | EvidenceFailure
      | BudgetFailure
                   | ControllerLoss | ProcessFailure | DeadlineFailure | ProtocolFailure

  function FailureNumber(f: Failure): nat {
    match f
    case NoFailure => 0 case Gate => 1 case TargetFailure => 2 case MeasurementFailure => 3 case CustodyFailure => 4
    case EvidenceFailure => 5 case BudgetFailure => 6 case ControllerLoss => 7 case ProcessFailure => 8
    case DeadlineFailure => 9 case ProtocolFailure => 10
  }

  datatype Flags = Flags(approved: bool, consumed: bool, created: bool, resumed: bool, creationUnknown: bool,
      deadlineExceeded: bool,
                         ipcComplete: bool, custodyAccepted: bool, custodyAcknowledged: bool, exited: bool,
                             handlesClosed: bool,
                         recoveryRequired: bool)

  const NO_FLAGS := Flags(false, false, false, false, false, false, false, false, false, false, false, false)

  datatype Verdict = NotRunYet | Passed | Failed | UnknownVerdict | InconclusiveVerdict

  function VerdictNumber(v: Verdict): nat {
    match v case NotRunYet => 0 case Passed => 1 case Failed => 2 case UnknownVerdict => 3 case InconclusiveVerdict => 4
  }

  datatype EvidenceRecord = EvidenceRecord(stage: Stage, firstFailure: Failure, batch: string, target: Digest,
      manifest: Digest, previous: Option<Digest>,
                           reviewer: string, verifier: string, review: string, verification: string,
                               process: Option<Digest>,
                           sequence: U32, pid: U32, creationTime: U64, utc: U64, mono: U64, launch: U64,
                           abi: seq<CallCounts>, native: seq<CallCounts>, samples: seq<ResourceSample>,
                               sampleCount: U32,
                           peak: ResourceSample, flags: Flags, firstStop: U32, security: Verdict, stability: Verdict)
  {
    predicate Shaped() { |abi| == 7 && |native| == 14 && |samples| == 18 }

    /** Whether the record has a hash at all. */
    predicate Whole() {
      && Shaped() && SafeId(batch) && sequence != 0 && SafeId(reviewer) && SafeId(verifier)
      && HexDigest(review, 64) && HexDigest(verification, 64) && sampleCount <= 18
    }
  }

  /** The hash is any function of a whole record. */
  type RecordHash = EvidenceRecord -> Digest

  function HashOf(h: RecordHash, r: EvidenceRecord): Option<Digest> {
    if r.Whole() then Some(h(r)) else None
  }

  // ----- the serialized record

  const RECORD_BYTES := 8192

  /** The hexadecimal digits of a digest. */
  function Hex(d: Digest): (b: Bytes)
    ensures |b| == 64
  {
    seq(64, i requires 0 <= i < 64 => HexDigit(if i % 2 == 0 then d[i / 2] / 16 else d[i / 2] % 16))
  }

  function HexDigit(n: nat): Byte
    requires n < 16
  {
    if n < 10 then 48 + n else 87 + n
  }

  function Characters(s: string): (b: Bytes)
    ensures |b| == |s|
  {
    seq(|s|, i requires 0 <= i < |s| => s[i] as int % 256)
  }

  function HexOrNothing(d: Option<Digest>): (b: Bytes)
    ensures |b| <= 64
  {
    if d.Some? then Hex(d.value) else []
  }

  /** A length in eight bytes, and the text. */
  function Text(b: Bytes): (t: Bytes)
    ensures |t| == 8 + |b|
  {
    LE(|b|, 8) + b
  }

  function Texts(owner: string, r: EvidenceRecord, hash: Digest): seq<Bytes> {
    [Characters(owner), Characters(r.batch), Hex(r.target), Hex(r.manifest), HexOrNothing(r.previous), Hex(hash),
     Characters(r.reviewer), Characters(r.verifier), Characters(r.review), Characters(r.verification),
         HexOrNothing(r.process)]
  }

  function AllTexts(texts: seq<Bytes>): Bytes {
    if texts == [] then [] else AllTexts(texts[..|texts| - 1]) + Text(texts[|texts| - 1])
  }

  function Numbers(r: EvidenceRecord): (ws: seq<nat>)
    ensures |ws| == 12
  {
    [r.sequence, StageNumber(r.stage), FailureNumber(r.firstFailure), r.pid, r.creationTime, r.utc, r.mono, r.launch,
        r.firstStop,
     r.sampleCount, VerdictNumber(r.security), VerdictNumber(r.stability)]
  }

  function SampleBytes(s: ResourceSample): (b: Bytes)
    ensures |b| == 32
  {
    LE(s.observedAt, 8) + LE(s.working, 8) + LE(s.commit, 8) + LE(s.handles, 4) + seq(4, i => 0)
  }

  function AllSamples(samples: seq<ResourceSample>): (b: Bytes)
    ensures |b| == Size(|samples|, 32)
  {
    if samples == [] then [] else SampleBytes(samples[0]) + AllSamples(samples[1..])
  }

  function FlagList(f: Flags): (ws: seq<nat>)
    ensures |ws| == 12
  {
    [Bit(f.approved), Bit(f.consumed), Bit(f.created), Bit(f.resumed), Bit(f.creationUnknown), Bit(f.deadlineExceeded),
     Bit(f.ipcComplete), Bit(f.custodyAccepted), Bit(f.custodyAcknowledged), Bit(f.exited), Bit(f.handlesClosed),
         Bit(f.recoveryRequired)]
  }

  function Counted(r: EvidenceRecord): seq<nat> {
    Numbers(r) + Flat(r.abi) + Flat(r.native)
  }

  function Body(owner: string, r: EvidenceRecord, hash: Digest): Bytes {
    Pack([0x32454853, 1], 8) + AllTexts(Texts(owner, r, hash)) + Pack(Counted(r), 8)
    + AllSamples(r.samples + [r.peak]) + Pack(FlagList(r.flags), 8)
  }

  /** How long the texts are, with their lengths. */
  function TextLength(texts: seq<Bytes>): nat {
    if texts == [] then 0 else TextLength(texts[..|texts| - 1]) + 8 + |texts[|texts| - 1]|
  }

  lemma {:induction false} AllTextsLength(texts: seq<Bytes>)
    ensures |AllTexts(texts)| == TextLength(texts)
  {
    if texts != [] { AllTextsLength(texts[..|texts| - 1]); }
  }

  lemma {:induction false} TextsBound(texts: seq<Bytes>, cap: nat)
    requires forall i | 0 <= i < |texts| :: |texts[i]| <= cap
    ensures TextLength(texts) <= Size(|texts|, 8 + cap)
  {
    if texts != [] { TextsBound(texts[..|texts| - 1], cap); }
  }

  /** A whole record fits its block with room for the seal, whatever is in it. */
  lemma BodyFits(owner: string, r: EvidenceRecord, hash: Digest)
    requires r.Whole() && SafeId(owner)
    ensures |Body(owner, r, hash)| <= 2816
  {
    hide SafeId, HexDigest, Flat, Characters, Hex, Pack, LE, AllSamples, AllTexts, Size;
    SafeIdIsShort(owner);
    SafeIdIsShort(r.batch);
    SafeIdIsShort(r.reviewer);
    SafeIdIsShort(r.verifier);
    HexIsShort(r.review);
    HexIsShort(r.verification);
    var texts := Texts(owner, r, hash);
    TextsBound(texts, 80);
    AllTextsLength(texts);
    SizeProduct(11, 88);
    SizeProduct(2, 8);
    SizeProduct(138, 8);
    SizeProduct(12, 8);
    SizeProduct(19, 32);
  }

  lemma SafeIdIsShort(s: string)
    requires SafeId(s)
    ensures |s| <= 80
  {
  }

  lemma HexIsShort(s: string)
    requires HexDigest(s, 64)
    ensures |s| <= 80
  {
  }

  // ----- the medium

  datatype Ack = Ack(fake: bool, ok: bool, sequence: U32, hash: Option<Digest>)

  const NO_ACK := Ack(false, false, 0, None)

  /** Each record names the hash of the one before, and carries its number. */
  ghost predicate Linked(records: seq<EvidenceRecord>, h: RecordHash) {
    forall i | 0 <= i < |records| :: records[i].sequence == i + 1 && records[i].previous == LastHash(records[..i], h)
  }

  function LastHash(records: seq<EvidenceRecord>, h: RecordHash): Option<Digest> {
    if records == [] then None else Some(h(records[|records| - 1]))
  }

  lemma LinkedMore(records: seq<EvidenceRecord>, h: RecordHash, r: EvidenceRecord)
    requires Linked(records, h) && r.sequence == |records| + 1 && r.previous == LastHash(records, h)
    ensures Linked(records + [r], h)
  {
    hide LastHash;
    var more := records + [r];
    forall i | 0 <= i < |more| ensures more[i].sequence == i + 1 && more[i].previous == LastHash(more[..i], h) {
      assert more[..i] == if i < |records| then records[..i] else records;
    }
  }

  /** The medium: it takes records one after the other, each naming the one before, and
      whatever does not end well closes it for good. */
  class PersistentEvidence {
    const batch: string
    const target: Digest
    const owner: string
    const most: U32
    const h: RecordHash
    const seal: Hash
    var sequence: U32
    var previous: Option<Digest>
    var failed: bool
    /** The records that were accepted, and how many were refused before they were tried. */
    ghost var kept: seq<EvidenceRecord>
    ghost var refusals: nat

    constructor (batch: string, target: Digest, owner: string, most: U32, h: RecordHash, seal: Hash)
      ensures Valid() && kept == [] && refusals == 0 && !failed
      ensures this.batch == batch && this.target == target && this.owner == owner && this.most == most && this.h == h
    {
      this.batch, this.target, this.owner, this.most, this.h, this.seal := batch, target, owner, most, h, seal;
      sequence, previous, failed, kept, refusals := 0, None, false, [], 0;
    }

    ghost predicate Valid()
      reads this
    {
      && Linked(kept, h) && |kept| == sequence && previous == LastHash(kept, h)
      && forall r | r in kept :: r.batch == batch && r.target == target && r.Whole()
    }

    /** Set up for at least one record and no more than the source allows. */
    predicate Configured() {
      SafeId(owner) && 0 < most <= 544
    }

    /** The next record of this chain. */
    predicate Continues(r: EvidenceRecord)
      reads this
    {
      && r.Whole() && sequence < most && r.sequence == sequence + 1 && r.previous == previous && r.batch == batch
      && r.target == target
    }

    method Preserve(r: EvidenceRecord) returns (threw: bool, ack: Ack)
      requires Valid()
      modifies this
      ensures Valid() && (threw ==> ack == NO_ACK)
      ensures old(failed) ==> failed && ack == NO_ACK && kept == old(kept) && refusals == old(refusals)
      ensures !old(failed) && Configured() && old(Continues(r)) ==> refusals == old(refusals)
      ensures ack.ok ==> !failed && kept == old(kept) + [r] && ack.sequence == r.sequence && ack.hash == Some(h(r))
                         && old(Continues(r)) && Configured()
      ensures !ack.ok ==> failed && kept == old(kept)
    {
      hide Body, SafeId, LastHash, Linked;
      threw, ack := false, NO_ACK;
      if failed { return; }
      failed := true;
      var hash := HashOf(h, r);
      if !SafeId(owner) || most == 0 || most > 544 || sequence >= most || r.sequence != sequence + 1
          || r.previous != previous
         || r.batch != batch || r.target != target || hash.None? {
        refusals := refusals + 1;
        return;
      }
      BodyFits(owner, r, hash.value);
      var b := new Byte[RECORD_BYTES](i => 0);
      var at := Add(b, 0, Body(owner, r, hash.value));
      if at > RECORD_BYTES - 32 { assert false; }
      Copy(b, RECORD_BYTES - 32, seal(b[..RECORD_BYTES - 32]));
      var origin, done: bool;
      threw, done, origin := *, *, *;
      if threw || !done { return; }
      LinkedMore(kept, h, r);
      LastIsNew(kept, r);
      kept := kept + [r];
      sequence, previous, failed := sequence + 1, hash, false;
      ack := Ack(origin, true, sequence, hash);
    }

    lemma LastIsNew(records: seq<EvidenceRecord>, r: EvidenceRecord)
      ensures LastHash(records + [r], h) == Some(h(r))
    {
    }
  }
}
