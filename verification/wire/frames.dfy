/** The frames the two sides send, and that the other side's parser accepts each of them
    when it is its turn. */
module Frames {
  import opened WireBytes
  import opened Settlements
  import opened Channels

  function HelloPayload(pid: U32, image: Digest): Payload {
    LE(pid, 4) + LE(3, 4) + Zeros(8) + image[..16]
  }

  function SamplePayload(lastMs: U64, working: U64, commit: U64, handles: U32, completed: U32): Payload {
    LE(lastMs, 8) + LE(working, 8) + LE(commit, 8) + LE(handles, 4) + LE(completed, 4)
  }

  function StopPayload(reason: U32): Payload {
    LE(reason, 4) + Zeros(28)
  }

  function AckPayload(): Payload {
    LE(1, 4) + Zeros(28)
  }

  function AdmissionPayload(origin: U64, duration: U32, handles: U32, working: U64, commit: U64): Payload {
    LE(origin, 8) + LE(duration, 4) + LE(handles, 4) + LE(working, 8) + LE(commit, 8)
  }

  function Hello(target: Digest, pid: U32, image: Digest): Frame {
    MakeFrame(HELLO, 1, 0, 1, target, HelloPayload(pid, image))
  }

  function Sample(target: Digest, number: U32, n: U16, lastMs: U64, working: U64, commit: U64, handles: U32,
      completed: U32): Frame {
    MakeFrame(SAMPLE, number, n, 18, target, SamplePayload(lastMs, working, commit, handles, completed))
  }

  function Stop(target: Digest, number: U32): Frame {
    MakeFrame(STOP, number, 0, 1, target, StopPayload(WORKER_REASON))
  }

  function Part(target: Digest, number: U32, block: Bytes, i: nat): Frame
    requires |block| == 768 && i < 24
  {
    MakeFrame(SETTLEMENT, number, i, 24, target, block[32 * i..32 * i + 32])
  }

  function Admission(target: Digest, origin: U64, handles: U32, working: U64, commit: U64): Frame {
    MakeFrame(ADMISSION, 1, 0, 1, target, AdmissionPayload(origin, DURATION, handles, working, commit))
  }

  function Ack(target: Digest): Frame {
    MakeFrame(ACK, 2, 0, 1, target, AckPayload())
  }

  // ----- accepted by the other side

  /** A field of the payload, counted from the start of the frame. */
  lemma PayloadField(f: Frame, payload: Payload, at: nat, k: nat)
    requires f[32..] == payload && 32 <= at && at + k <= 64
    ensures f[at..at + k] == payload[at - 32..at - 32 + k]
  {
  }

  lemma HelloAccepted(target: Digest, admissionOnly: bool, pid: U32, image: Digest, h: Hash)
    requires pid != 0
    ensures Accept(Fresh(target, true, admissionOnly), Hello(target, pid, image), h) 
            == Fresh(target, true, admissionOnly).(count := 1)
  {
    hide LE, Value, MakeFrame, Decode;
    var p := HelloPayload(pid, image);
    FrameFields(HELLO, 1, 0, 1, target, p);
    var f := Hello(target, pid, image);
    PayloadField(f, p, 32, 4);
    PayloadField(f, p, 36, 4);
    PayloadField(f, p, 40, 4);
    PayloadField(f, p, 44, 4);
    assert p[..4] == LE(pid, 4) && p[4..8] == LE(3, 4) && p[8..12] == Zeros(4) && p[12..16] == Zeros(4);
    FieldIs(f, 32, 4, pid);
    FieldIs(f, 36, 4, 3);
    ZeroIs(4);
    FieldIs(f, 40, 4, 0);
  }

  lemma FieldIs(f: Frame, at: nat, k: nat, n: nat)
    requires at + k <= 64 && f[at..at + k] == LE(n, k) && n < Power(k)
    ensures Field(f, at, k) == n
  {
    ValueLE(n, k);
  }

  lemma {:induction false} ZeroIs(k: nat)
    ensures Zeros(k) == LE(0, k)
  {
    if k > 0 {
      ZeroIs(k - 1);
      assert Zeros(k) == [0] + Zeros(k - 1);
    }
  }

  /** What the controller's parser looks like while the worker may still sample. */
  predicate Sampling(s: State, target: Digest) {
    s.Valid() && s.target == target && s.worker && !s.failed && !s.stopped && !s.acknowledged && s.parts == 0
    && s.samples <= 18 && s.count == s.samples + 1
  }

  lemma SampleAccepted(s: State, target: Digest, lastMs: U64, working: U64, commit: U64, handles: U32, h: Hash)
    requires Sampling(s, target) && s.samples < 18
    ensures var f := Sample(target, s.count + 1, s.samples, lastMs, working, commit, handles,
        Completed(s.admissionOnly, s.samples));
            Accept(s, f, h) == s.(samples := s.samples + 1, count := s.count + 1)
  {
    hide LE, Value, MakeFrame, Decode;
    var c := Completed(s.admissionOnly, s.samples);
    var p := SamplePayload(lastMs, working, commit, handles, c);
    FrameFields(SAMPLE, s.count + 1, s.samples, 18, target, p);
    var f := Sample(target, s.count + 1, s.samples, lastMs, working, commit, handles, c);
    PayloadField(f, p, 60, 4);
    assert p[28..32] == LE(c, 4);
    FieldIs(f, 60, 4, c);
  }

  lemma StopAccepted(s: State, target: Digest, h: Hash)
    requires s.Valid() && s.target == target && !s.failed && !s.stopped && !s.acknowledged
        && 0 < s.count < Cap(s.worker)
    ensures Accept(s, Stop(target, s.count + 1), h) == s.(stopped := true, count := s.count + 1)
  {
    hide LE, Value, MakeFrame, Decode;
    var p := StopPayload(WORKER_REASON);
    FrameFields(STOP, s.count + 1, 0, 1, target, p);
    var f := Stop(target, s.count + 1);
    PayloadField(f, p, 32, 4);
    PayloadField(f, p, 48, 16);
    assert p[..4] == LE(WORKER_REASON, 4) && p[16..32] == Zeros(16);
    FieldIs(f, 32, 4, WORKER_REASON);
  }

  /** What the controller's parser looks like after i settlement parts. */
  predicate Collecting(s: State, target: Digest, block: Bytes, i: nat) {
    s.Valid() && |block| == 768 && s.target == target && s.worker && !s.failed && (s.samples == 18 || s.stopped)
    && s.parts == i && s.count < 44 - (24 - i) + 1 && s.count != 0 && s.settlement[..32 * i] == block[..32 * i]
  }

  lemma CollectingFromZero(s: State, target: Digest, block: Bytes)
    requires s.Valid() && |block| == 768 && s.target == target && s.worker && !s.failed
        && (s.samples == 18 || s.stopped)
    requires s.parts == 0 && 0 < s.count < 21
    ensures Collecting(s, target, block, 0)
  {
    assert s.settlement[..0] == block[..0];
  }

  lemma PartAccepted(s: State, target: Digest, block: Bytes, i: nat, h: Hash)
    requires i < 24 && Collecting(s, target, block, i) && Decode(block, h).Some?
    ensures var t := Accept(s, Part(target, s.count + 1, block, i), h);
            Collecting(t, target, block, i + 1) && t.count == s.count + 1 && t.admissionOnly == s.admissionOnly
  {
    hide LE, Value, MakeFrame, Decode;
    var p := block[32 * i..32 * i + 32];
    FrameFields(SETTLEMENT, s.count + 1, i, 24, target, p);
    var t := WithPart(s, Part(target, s.count + 1, block, i));
    assert t.settlement[..32 * (i + 1)] == s.settlement[..32 * i] + p;
    assert block[..32 * (i + 1)] == block[..32 * i] + p;
    if i == 23 {
      assert t.settlement[..768] == t.settlement && block[..768] == block;
    }
  }

  lemma AdmissionAccepted(target: Digest, admissionOnly: bool, origin: U64, handles: U32, working: U64, commit: U64,
      h: Hash)
    requires handles != 0 && working != 0 && commit != 0
    ensures Accept(Fresh(target, false, admissionOnly), Admission(target, origin, handles, working, commit), h)
            == Fresh(target, false, admissionOnly).(count := 1)
    ensures var f := Admission(target, origin, handles, working, commit);
            Field(f, 32, 8) == origin && Field(f, 44, 4) == handles && Field(f, 48, 8) == working
                && Field(f, 56, 8) == commit
  {
    hide LE, Value, MakeFrame, Decode;
    var p := AdmissionPayload(origin, DURATION, handles, working, commit);
    FrameFields(ADMISSION, 1, 0, 1, target, p);
    var f := Admission(target, origin, handles, working, commit);
    assert Power(8) == 0x1_0000_0000_0000_0000 && Power(4) == 0x1_0000_0000;
    PayloadField(f, p, 32, 8);
    PayloadField(f, p, 40, 4);
    PayloadField(f, p, 44, 4);
    PayloadField(f, p, 48, 8);
    PayloadField(f, p, 56, 8);
    assert p[..8] == LE(origin, 8) && p[8..12] == LE(DURATION, 4) && p[12..16] == LE(handles, 4);
    assert p[16..24] == LE(working, 8) && p[24..32] == LE(commit, 8);
    FieldIs(f, 32, 8, origin);
    FieldIs(f, 40, 4, DURATION);
    FieldIs(f, 44, 4, handles);
    FieldIs(f, 48, 8, working);
    FieldIs(f, 56, 8, commit);
  }

  lemma AckAccepted(s: State, target: Digest, h: Hash)
    requires s.Valid() && s.target == target && !s.worker && !s.failed && !s.acknowledged && s.count == 1
    ensures Accept(s, Ack(target), h) == s.(acknowledged := true, count := 2)
  {
    hide LE, Value, MakeFrame, Decode;
    var p := AckPayload();
    FrameFields(ACK, 2, 0, 1, target, p);
    var f := Ack(target);
    PayloadField(f, p, 32, 4);
    PayloadField(f, p, 36, 28);
    assert p[..4] == LE(1, 4) && p[4..32] == Zeros(28);
    FieldIs(f, 32, 4, 1);
  }

  // ----- how they are written

  /** A zeroed frame with its header filled in. */
  method NewFrame(kind: nat, number: nat, part: nat, total: nat, target: Digest) returns (f: array<Byte>)
    ensures fresh(f) && f.Length == 64 && f[..] == FrameHeader(kind, number, part, total, target) + Zeros(32)
  {
    hide LE, Patched, Zeros;
    f := new Byte[64](i => 0);
    AllZero(f[..]);
    ghost var head: Bytes := [];
    assert f[..] == head + Zeros(64);
    head := FillNext(head, LE(MAGIC, 4), 64);
    Put(f, 0, MAGIC, 4);
    head := FillNext(head, LE(1, 2), 60);
    Put(f, 4, 1, 2);
    head := FillNext(head, LE(kind, 2), 58);
    Put(f, 6, kind, 2);
    head := FillNext(head, LE(number, 4), 56);
    Put(f, 8, number, 4);
    head := FillNext(head, LE(part, 2), 52);
    Put(f, 12, part, 2);
    head := FillNext(head, LE(total, 2), 50);
    Put(f, 14, total, 2);
    head := FillNext(head, target[..16], 48);
    Copy(f, 16, target[..16]);
    assert [] + LE(MAGIC, 4) == LE(MAGIC, 4);
  }

  lemma AllZero(b: Bytes)
    requires forall i | 0 <= i < |b| :: b[i] == 0
    ensures b == [] + Zeros(|b|)
  {
  }

  /** Writing s over the zeros right behind head. */
  lemma FillNext(head: Bytes, s: Bytes, zeros: nat) returns (next: Bytes)
    requires |s| <= zeros
    ensures next == head + s && |next| == |head| + |s|
    ensures Patched(head + Zeros(zeros), |head|, s) == next + Zeros(zeros - |s|)
  {
    next := head + s;
  }

  /** A run of zeros in two parts. */
  lemma ZerosSplit(m: nat, n: nat)
    ensures Zeros(m + n) == Zeros(m) + Zeros(n)
  {
  }

  method BuildHello(target: Digest, pid: U32, image: Digest) returns (f: Frame)
    ensures f == Hello(target, pid, image)
  {
    hide LE, Patched, Zeros, FrameHeader;
    var a := NewFrame(HELLO, 1, 0, 1, target);
    ghost var header := FrameHeader(HELLO, 1, 0, 1, target);
    ghost var head := FillNext(header, LE(pid, 4), 32);
    Put(a, 32, pid, 4);
    head := FillNext(head, LE(3, 4), 28);
    Put(a, 36, 3, 4);
    ZerosSplit(8, 16);
    assert head + Zeros(24) == (head + Zeros(8)) + Zeros(16);
    head := FillNext(head + Zeros(8), image[..16], 16);
    Copy(a, 48, image[..16]);
    f := a[..];
    assert f == header + (LE(pid, 4) + LE(3, 4) + Zeros(8) + image[..16]);
  }

  method BuildSample(target: Digest, number: U32, n: U16, lastMs: U64, working: U64, commit: U64, handles: U32,
      completed: U32)
    returns (f: Frame)
    ensures f == Sample(target, number, n, lastMs, working, commit, handles, completed)
  {
    hide LE, Patched, Zeros, FrameHeader;
    var a := NewFrame(SAMPLE, number, n, 18, target);
    ghost var header := FrameHeader(SAMPLE, number, n, 18, target);
    ghost var head := FillNext(header, LE(lastMs, 8), 32);
    Put(a, 32, lastMs, 8);
    head := FillNext(head, LE(working, 8), 24);
    Put(a, 40, working, 8);
    head := FillNext(head, LE(commit, 8), 16);
    Put(a, 48, commit, 8);
    head := FillNext(head, LE(handles, 4), 8);
    Put(a, 56, handles, 4);
    head := FillNext(head, LE(completed, 4), 4);
    Put(a, 60, completed, 4);
    f := a[..];
    assert f == header + (LE(lastMs, 8) + LE(working, 8) + LE(commit, 8) + LE(handles, 4) + LE(completed, 4));
  }

  method BuildStop(target: Digest, number: U32) returns (f: Frame)
    ensures f == Stop(target, number)
  {
    hide LE, Patched, Zeros, FrameHeader;
    var a := NewFrame(STOP, number, 0, 1, target);
    ghost var head := FillNext(FrameHeader(STOP, number, 0, 1, target), LE(WORKER_REASON, 4), 32);
    Put(a, 32, WORKER_REASON, 4);
    f := a[..];
    assert f == FrameHeader(STOP, number, 0, 1, target) + (LE(WORKER_REASON, 4) + Zeros(28));
  }

  method BuildAck(target: Digest) returns (f: Frame)
    ensures f == Ack(target)
  {
    hide LE, Patched, Zeros, FrameHeader;
    var a := NewFrame(ACK, 2, 0, 1, target);
    ghost var head := FillNext(FrameHeader(ACK, 2, 0, 1, target), LE(1, 4), 32);
    Put(a, 32, 1, 4);
    f := a[..];
    assert f == FrameHeader(ACK, 2, 0, 1, target) + (LE(1, 4) + Zeros(28));
  }

  method BuildAdmission(target: Digest, origin: U64, handles: U32, working: U64, commit: U64) returns (f: Frame)
    ensures f == Admission(target, origin, handles, working, commit)
  {
    hide LE, Patched, Zeros, FrameHeader;
    var a := NewFrame(ADMISSION, 1, 0, 1, target);
    ghost var header := FrameHeader(ADMISSION, 1, 0, 1, target);
    ghost var head := FillNext(header, LE(origin, 8), 32);
    Put(a, 32, origin, 8);
    head := FillNext(head, LE(DURATION, 4), 24);
    Put(a, 40, DURATION, 4);
    head := FillNext(head, LE(handles, 4), 20);
    Put(a, 44, handles, 4);
    head := FillNext(head, LE(working, 8), 16);
    Put(a, 48, working, 8);
    head := FillNext(head, LE(commit, 8), 8);
    Put(a, 56, commit, 8);
    f := a[..];
    assert f == header + (LE(origin, 8) + LE(DURATION, 4) + LE(handles, 4) + LE(working, 8) + LE(commit, 8));
  }

  method BuildPart(block: Bytes, target: Digest, number: U32, i: nat) returns (f: Frame)
    requires |block| == 768 && i < 24
    ensures f == Part(target, number, block, i)
  {
    hide LE, Patched, Zeros, FrameHeader;
    var a := NewFrame(SETTLEMENT, number, i, 24, target);
    ghost var head := FillNext(FrameHeader(SETTLEMENT, number, i, 24, target), block[32 * i..32 * i + 32], 32);
    Copy(a, 32, block[32 * i..32 * i + 32]);
    f := a[..];
  }

  /** The block cut into 24 frames. */
  method SettlementFrames(block: Bytes, target: Digest, number: U32) returns (frames: seq<Frame>)
    requires |block| == 768 && number + 24 < 0x1_0000_0000
    ensures |frames| == 24 && forall i | 0 <= i < 24 :: frames[i] == Part(target, number + i, block, i)
  {
    hide Part, Patched;
    frames := [];
    for i := 0 to 24
      invariant |frames| == i && forall j | 0 <= j < i :: frames[j] == Part(target, number + j, block, j)
    {
      var frame := BuildPart(block, target, number + i, i);
      frames := frames + [frame];
    }
  }
}
