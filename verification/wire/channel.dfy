/** The 64-byte frames and the parser of one direction of the wire. */
module Channels {
  import opened WireBytes
  import opened Settlements

  type Frame = f: Bytes | |f| == 64 witness seq(64, i => 0)

  const MAGIC := 0x314c4853
  const HELLO := 1
  const ADMISSION := 2
  const SAMPLE := 3
  const STOP := 4
  const SETTLEMENT := 5
  const ACK := 6

  /** The largest stop reason. */
  const SETTLEMENT_REASON := 7
  const WORKER_REASON := 6

  function Zeros(n: nat): (b: Bytes)
    ensures |b| == n
  {
    seq(n, i => 0)
  }

  /** The integer in k bytes of the frame. */
  function Field(f: Frame, at: nat, k: nat): nat
    requires at + k <= 64
  {
    Value(f[at..at + k])
  }

  function FrameHeader(kind: nat, number: nat, part: nat, total: nat, target: Digest): (b: Bytes)
    ensures |b| == 32
  {
    LE(MAGIC, 4) + LE(1, 2) + LE(kind, 2) + LE(number, 4) + LE(part, 2) + LE(total, 2) + target[..16]
  }

  type Payload = b: Bytes | |b| == 32 witness seq(32, i => 0)

  function MakeFrame(kind: nat, number: nat, part: nat, total: nat, target: Digest, payload: Payload): Frame {
    FrameHeader(kind, number, part, total, target) + payload
  }

  /** A frame says what it was made of. */
  lemma FrameFields(kind: U16, number: U32, part: U16, total: U16, target: Digest, payload: Payload)
    ensures var f := MakeFrame(kind, number, part, total, target, payload);
      && Field(f, 0, 4) == MAGIC && Field(f, 4, 2) == 1 && Field(f, 6, 2) == kind && Field(f, 8, 4) == number
      && Field(f, 12, 2) == part && Field(f, 14, 2) == total && f[16..32] == target[..16] && f[32..] == payload
  {
    hide LE, Value;
    var f := MakeFrame(kind, number, part, total, target, payload);
    assert Power(2) == 0x1_0000 && Power(4) == 0x1_0000_0000;
    assert f[0..4] == LE(MAGIC, 4) && f[4..6] == LE(1, 2) && f[6..8] == LE(kind, 2);
    assert f[8..12] == LE(number, 4) && f[12..14] == LE(part, 2) && f[14..16] == LE(total, 2);
    ValueLE(MAGIC, 4);
    ValueLE(1, 2);
    ValueLE(kind, 2);
    ValueLE(number, 4);
    ValueLE(part, 2);
    ValueLE(total, 2);
  }

  // ----- the parser

  datatype State = State(target: Digest, worker: bool, admissionOnly: bool, failed: bool, stopped: bool,
                         acknowledged: bool,
                         count: nat, samples: nat, parts: nat, settlement: Bytes)
  {
    predicate Valid() { |settlement| == 768 && parts <= 24 }

    function Fail(): State { this.(failed := true) }
  }

  function Fresh(target: Digest, worker: bool, admissionOnly: bool): (s: State)
    ensures s.Valid()
  {
    State(target, worker, admissionOnly, false, false, false, 0, 0, 0, Zeros(768))
  }

  function Cap(worker: bool): nat {
    if worker then 44 else 3
  }

  predicate WellFramed(s: State, f: Frame) {
    && Field(f, 0, 4) == MAGIC && Field(f, 4, 2) == 1 && Field(f, 8, 4) == s.count + 1
    && s.target[..16] == f[16..32] && HELLO <= Field(f, 6, 2) <= ACK
  }

  predicate StopFits(s: State, f: Frame) {
    && !s.stopped && !s.acknowledged && s.count != 0 && Field(f, 14, 2) == 1 && Field(f, 12, 2) == 0
    && 1 <= Field(f, 32, 4) <= SETTLEMENT_REASON && f[48..64] == Zeros(16)
  }

  predicate HelloFits(f: Frame) {
    && Field(f, 6, 2) == HELLO && Field(f, 12, 2) == 0 && Field(f, 14, 2) == 1
    && Field(f, 32, 4) != 0 && Field(f, 36, 4) == 3 && Field(f, 40, 4) == 0 && f[44..48] == Zeros(4)
  }

  /** How many calls the n-th sample must report. */
  function Completed(admissionOnly: bool, n: nat): nat {
    if admissionOnly then 0 else if n == 17 then 16 else n
  }

  predicate SampleFits(s: State, f: Frame) {
    && !s.stopped && s.parts == 0 && s.samples < 18 && Field(f, 14, 2) == 18
    && Field(f, 12, 2) == s.samples && Field(f, 60, 4) == Completed(s.admissionOnly, s.samples)
  }

  predicate PartFits(s: State, f: Frame) {
    Field(f, 14, 2) == 24 && Field(f, 12, 2) == s.parts && s.parts < 24 && (s.samples == 18 || s.stopped)
  }

  predicate AdmissionFits(f: Frame) {
    && Field(f, 6, 2) == ADMISSION && Field(f, 12, 2) == 0 && Field(f, 14, 2) == 1
    && Field(f, 40, 4) == DURATION && Field(f, 48, 8) != 0 && Field(f, 56, 8) != 0 && Field(f, 44, 4) != 0
  }

  predicate AckFits(s: State, f: Frame) {
    && Field(f, 6, 2) == ACK && !s.acknowledged && Field(f, 12, 2) == 0 && Field(f, 14, 2) == 1
    && Field(f, 32, 4) == 1 && f[36..64] == Zeros(28)
  }

  /** The state after a settlement part was stored. */
  function WithPart(s: State, f: Frame): (t: State)
    requires s.Valid() && s.parts < 24
    ensures t.Valid()
  {
    s.(settlement := Patched(s.settlement, 32 * s.parts, f[32..]), parts := s.parts + 1)
  }

  /** A frame other than a stop on the controller's direction: the admission, then the
      acknowledgement. */
  function FromController(s: State, f: Frame): State {
    if s.count == 0 then if AdmissionFits(f) then s.(count := 1) else s.Fail()
    else if AckFits(s, f) then s.(acknowledged := true, count := s.count + 1) else s.Fail()
  }

  /** A frame other than a stop on the worker's direction: the hello, then samples, then
      settlement parts. The last part must complete a block that decodes. */
  function FromWorker(s: State, f: Frame, h: Hash): (t: State)
    requires s.Valid()
    ensures t.Valid()
  {
    hide Decode;
    if s.count == 0 then
      if HelloFits(f) then s.(count := 1) else s.Fail()
    else if Field(f, 6, 2) == SAMPLE then
      if SampleFits(s, f) then s.(samples := s.samples + 1, count := s.count + 1) else s.Fail()
    else if Field(f, 6, 2) == SETTLEMENT && PartFits(s, f) then
      var t := WithPart(s, f);
      if t.parts == 24 && Decode(t.settlement, h).None? then t.Fail() else t.(count := t.count + 1)
    else s.Fail()
  }

  /** One frame: the next state, failed unless the frame was accepted. */
  function Accept(s: State, f: Frame, h: Hash): (t: State)
    requires s.Valid()
    ensures t.Valid() && t.target == s.target && t.worker == s.worker && t.admissionOnly == s.admissionOnly
    ensures s.count <= Cap(s.worker) ==> t.count <= Cap(s.worker)
    ensures if t.failed then t.count == s.count else t.count == s.count + 1
  {
    hide Decode, Value, Patched;
    if s.failed || s.count >= Cap(s.worker) || !WellFramed(s, f) then s.Fail()
    else if Field(f, 6, 2) == STOP then
      if StopFits(s, f) then s.(stopped := true, count := s.count + 1) else s.Fail()
    else if s.worker then FromWorker(s, f, h)
    else FromController(s, f)
  }

  /** On the worker's channel the hello is the first frame and no other. */
  lemma HelloComesFirst(s: State, f: Frame, h: Hash)
    requires s.Valid() && s.worker
    ensures !Accept(s, f, h).failed ==> (s.count == 0 <==> Field(f, 6, 2) == HELLO)
    ensures !Accept(s, f, h).failed && s.count == 0 ==> HelloFits(f) && f[16..32] == s.target[..16]
  {
    hide Value, Decode, WithPart;
  }

  /** The state after a run of frames. */
  function Feed(s: State, frames: seq<Frame>, h: Hash): (t: State)
    requires s.Valid()
    ensures t.Valid() && t.target == s.target && t.worker == s.worker && t.admissionOnly == s.admissionOnly
    ensures s.count <= Cap(s.worker) ==> t.count <= Cap(s.worker)
  {
    if frames == [] then s else Accept(Feed(s, frames[..|frames| - 1], h), frames[|frames| - 1], h)
  }

  /** A failed parser stays failed: if the run did not fail, no frame of it was refused. */
  lemma {:induction false} NeverRefused(s: State, frames: seq<Frame>, i: nat, h: Hash)
    requires s.Valid() && i <= |frames| && !Feed(s, frames, h).failed
    ensures !Feed(s, frames[..i], h).failed
  {
    var n := |frames|;
    if i == n {
      assert frames[..n] == frames;
    } else {
      NeverRefused(s, frames[..n - 1], i, h);
      assert frames[..n - 1][..i] == frames[..i];
    }
  }

  class Channel {
    const target: Digest
    const worker: bool
    const admissionOnly: bool
    var failed: bool
    var stopped: bool
    var acknowledged: bool
    var count: nat
    var samples: nat
    var parts: nat
    const settlement: array<Byte>

    constructor (target: Digest, worker: bool, admissionOnly: bool)
      ensures Valid() && Now() == Fresh(target, worker, admissionOnly) && fresh(settlement)
    {
      this.target, this.worker, this.admissionOnly := target, worker, admissionOnly;
      failed, stopped, acknowledged, count, samples, parts := false, false, false, 0, 0, 0;
      settlement := new Byte[768](i => 0);
    }

    predicate Valid()
      reads this
    {
      settlement.Length == 768 && parts <= 24
    }

    ghost function Now(): (s: State)
      requires Valid()
      reads this, settlement
      ensures s.Valid()
    {
      State(target, worker, admissionOnly, failed, stopped, acknowledged, count, samples, parts, settlement[..])
    }

    method Refuse() returns (ok: bool)
      requires Valid()
      modifies this`failed
      ensures !ok && Valid() && Now() == old(Now()).Fail()
    {
      failed := true;
      ok := false;
    }

    /** Parses one frame; the channel is the state function, step by step. */
    method AcceptFrame(f: Frame, h: Hash) returns (ok: bool)
      requires Valid()
      modifies this, settlement
      ensures Valid() && Now() == Accept(old(Now()), f, h) && ok == !Now().failed
    {
      hide Value, FromWorker, FromController;
      if failed || count >= Cap(worker) { ok := Refuse(); return; }
      var magic := Get(f, 0, 4);
      var version := Get(f, 4, 2);
      var number := Get(f, 8, 4);
      var kind := Get(f, 6, 2);
      if magic != MAGIC || version != 1 || number != count + 1 || target[..16] != f[16..32] || kind < 1 || kind > 6 {
        ok := Refuse();
        return;
      }
      var part := Get(f, 12, 2);
      var total := Get(f, 14, 2);
      var first := Get(f, 32, 4);
      if kind == STOP {
        var clear := Zero(f[48..64]);
        if stopped || acknowledged || count == 0 || total != 1 || part != 0 || first < 1 || first > SETTLEMENT_REASON
            || !clear {
          ok := Refuse();
          return;
        }
        stopped := true;
      } else if worker {
        ok := AcceptWorker(f, kind, part, total, h);
        if !ok { return; }
      } else {
        ok := AcceptController(f, kind, part, total);
        if !ok { return; }
      }
      count := count + 1;
      ok := true;
    }

    method IsAdmission(f: Frame, kind: nat, part: nat, total: nat) returns (fits: bool)
      requires kind == Field(f, 6, 2) && part == Field(f, 12, 2) && total == Field(f, 14, 2)
      ensures fits == AdmissionFits(f)
    {
      hide Value;
      var duration := Get(f, 40, 4);
      var handles := Get(f, 44, 4);
      var working := Get(f, 48, 8);
      var commit := Get(f, 56, 8);
      fits := kind == ADMISSION && part == 0 && total == 1 && duration == DURATION && working != 0 && commit != 0
          && handles != 0;
    }

    method IsAck(f: Frame, kind: nat, part: nat, total: nat) returns (fits: bool)
      requires Valid() && kind == Field(f, 6, 2) && part == Field(f, 12, 2) && total == Field(f, 14, 2)
      ensures fits == AckFits(Now(), f)
    {
      hide Value;
      var value := Get(f, 32, 4);
      var clear := Zero(f[36..64]);
      fits := kind == ACK && !acknowledged && part == 0 && total == 1 && value == 1 && clear;
    }

    method IsHello(f: Frame, kind: nat, part: nat, total: nat) returns (fits: bool)
      requires kind == Field(f, 6, 2) && part == Field(f, 12, 2) && total == Field(f, 14, 2)
      ensures fits == HelloFits(f)
    {
      hide Value;
      var pid := Get(f, 32, 4);
      var three := Get(f, 36, 4);
      var none := Get(f, 40, 4);
      var clear := Zero(f[44..48]);
      fits := kind == HELLO && part == 0 && total == 1 && pid != 0 && three == 3 && none == 0 && clear;
    }

    method IsSample(f: Frame, part: nat, total: nat) returns (fits: bool)
      requires Valid() && part == Field(f, 12, 2) && total == Field(f, 14, 2)
      ensures fits == SampleFits(Now(), f)
    {
      hide Value;
      var completed := Get(f, 60, 4);
      fits := !stopped && parts == 0 && samples < 18 && total == 18 && part == samples
          && completed == Completed(admissionOnly, samples);
    }

    method AcceptController(f: Frame, kind: nat, part: nat, total: nat) returns (ok: bool)
      requires Valid() && kind == Field(f, 6, 2) && part == Field(f, 12, 2) && total == Field(f, 14, 2) && !failed
      modifies this
      ensures Valid() && ok == !FromController(old(Now()), f).failed && count == old(count)
      ensures (if ok then Now().(count := count + 1) else Now()) == FromController(old(Now()), f)
    {
      hide Value, AdmissionFits, AckFits;
      if count == 0 {
        ok := IsAdmission(f, kind, part, total);
      } else {
        ok := IsAck(f, kind, part, total);
      }
      if !ok { ok := Refuse(); return; }
      if count != 0 { acknowledged := true; }
    }

    /** Stores a settlement part; the last one must complete a block that decodes. */
    method AcceptPart(f: Frame, h: Hash) returns (ok: bool)
      requires Valid() && parts < 24 && !failed
      modifies this`failed, this`parts, settlement
      ensures Valid()
      ensures var t := WithPart(old(Now()), f);
              ok == !(t.parts == 24 && Decode(t.settlement, h).None?) && Now() == if ok then t else t.Fail()
    {
      hide Value, Decode, Patched;
      Copy(settlement, 32 * parts, f[32..]);
      parts := parts + 1;
      ok := true;
      if parts == 24 {
        var record := DecodeSettlement(settlement[..], h);
        if record.None? { ok := Refuse(); }
      }
    }

    method AcceptWorker(f: Frame, kind: nat, part: nat, total: nat, h: Hash) returns (ok: bool)
      requires Valid() && kind == Field(f, 6, 2) && part == Field(f, 12, 2) && total == Field(f, 14, 2) && !failed
      modifies this, settlement
      ensures Valid() && ok == !FromWorker(old(Now()), f, h).failed && count == old(count)
      ensures (if ok then Now().(count := count + 1) else Now()) == FromWorker(old(Now()), f, h)
    {
      hide Value, Decode, Patched, HelloFits, SampleFits;
      if count == 0 {
        ok := IsHello(f, kind, part, total);
        if !ok { ok := Refuse(); }
      } else if kind == SAMPLE {
        ok := IsSample(f, part, total);
        if !ok { ok := Refuse(); return; }
        samples := samples + 1;
      } else {
        if kind != SETTLEMENT || total != 24 || part != parts || parts >= 24
            || (samples != 18 && !stopped) { ok := Refuse(); return; }
        ok := AcceptPart(f, h);
      }
    }

    predicate Complete()
      reads this
    {
      worker && !failed && parts == 24
    }

    /** The record of a complete channel. */
    method Records(h: Hash) returns (r: Option<Record>)
      requires Valid()
      ensures r == if Complete() then Decode(settlement[..], h) else None
    {
      if !Complete() { return None; }
      r := DecodeSettlement(settlement[..], h);
    }
  }
}
