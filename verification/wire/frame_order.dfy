/** Which runs of frames one direction of the wire lets through, said of the bytes alone. */
module FrameOrder {
  import opened WireBytes
  import opened Settlements
  import opened Channels

  // ----- what the frames say

  /** How many of the frames are of this kind. */
  function Number(frames: seq<Frame>, kind: Byte): (n: nat)
    ensures n == 0 <==> forall f <- frames :: f[6] != kind
  {
    if frames == [] then 0
    else
      var n := |frames|;
      Number(frames[..n - 1], kind) + Bit(frames[n - 1][6] == kind)
  }

  /** The payloads of the settlement parts, in order. */
  function Gathered(frames: seq<Frame>): Bytes {
    if frames == [] then []
    else
      var n := |frames|;
      Gathered(frames[..n - 1]) + if frames[n - 1][6] == 5 then frames[n - 1][32..] else []
  }

  /** Magic, version, kind, number, part and total, then the first half of the target. */
  predicate Says(f: Frame, target: Digest, number: Byte, kind: Byte, part: Byte, total: Byte) {
    && f[..16] == [0x53, 0x48, 0x4c, 0x31, 1, 0, kind, 0, number, 0, 0, 0, part, 0, total, 0]
    && f[16..32] == target[..16]
  }

  /** A process with three mitigations and no more. */
  predicate Hello(f: Frame, target: Digest) {
    && Says(f, target, 1, 1, 0, 1)
    && f[32..36] != [0, 0, 0, 0] && f[36..40] == [3, 0, 0, 0] && forall k | 40 <= k < 48 :: f[k] == 0
  }

  /** Thirty seconds, and limits that are not zero. */
  predicate Admission(f: Frame, target: Digest) {
    && Says(f, target, 1, 2, 0, 1) && f[40..44] == [0x30, 0x75, 0, 0] && f[44..48] != [0, 0, 0, 0]
    && f[48..56] != [0, 0, 0, 0, 0, 0, 0, 0] && f[56..64] != [0, 0, 0, 0, 0, 0, 0, 0]
  }

  predicate Stop(f: Frame, target: Digest, number: Byte) {
    && Says(f, target, number, 4, 0, 1) && 1 <= f[32] <= 7 && f[33..36] == [0, 0, 0]
    && forall k | 48 <= k < 64 :: f[k] == 0
  }

  predicate Acknowledgement(f: Frame, target: Digest, number: Byte) {
    Says(f, target, number, 6, 0, 1) && f[32] == 1 && forall k | 33 <= k < 64 :: f[k] == 0
  }

  predicate Sample(f: Frame, target: Digest, number: Byte, n: Byte, completed: Byte) {
    Says(f, target, number, 3, n, 18) && f[60..64] == [completed, 0, 0, 0]
  }

  predicate Part(f: Frame, target: Digest, number: Byte, p: Byte) {
    Says(f, target, number, 5, p, 24)
  }

  /** A frame of the worker after earlier ones: the hello first; then the samples in turn,
      none after a stop or a part; the parts in turn, after all samples or a stop, the last
      of them completing a block that decodes; and one stop at any time. */
  predicate NextOfWorker(target: Digest, admissionOnly: bool, earlier: seq<Frame>, f: Frame, h: Hash) {
    if earlier == [] then Hello(f, target)
    else
      var n, p, stopped := Number(earlier, 3), Number(earlier, 5), exists g <- earlier :: g[6] == 4;
      && |earlier| < 44
      && (|| (!stopped && Stop(f, target, |earlier| + 1))
          || (&& !stopped && p == 0 && n < 18
              && Sample(f, target, |earlier| + 1, n, if admissionOnly then 0 else if n == 17 then 16 else n))
          || (&& (n == 18 || stopped) && p < 24 && Part(f, target, |earlier| + 1, p)
              && (p == 23 ==> |Gathered(earlier)| == 736 && Decode(Gathered(earlier) + f[32..], h).Some?)))
  }

  /** A frame of the controller: the admission first; then one acknowledgement, and one stop
      before it or instead. */
  predicate NextOfController(target: Digest, earlier: seq<Frame>, f: Frame) {
    if earlier == [] then Admission(f, target)
    else
      && |earlier| < 3 && (forall g <- earlier :: g[6] != 6)
      && (|| ((forall g <- earlier :: g[6] != 4) && Stop(f, target, |earlier| + 1))
          || Acknowledgement(f, target, |earlier| + 1))
  }

  predicate Next(target: Digest, worker: bool, admissionOnly: bool, earlier: seq<Frame>, f: Frame, h: Hash) {
    if worker then NextOfWorker(target, admissionOnly, earlier, f, h) else NextOfController(target, earlier, f)
  }

  // ----- small integers in bytes

  lemma {:induction false} SmallValue(b: Bytes, n: Byte)
    requires b != []
    ensures Value(b) == n <==> b == [n] + Zeros(|b| - 1)
  {
    if Value(b) == n {
      assert b[0] == n && Value(b[1..]) == 0;
      ZeroValue(b[1..]);
      assert b == [b[0]] + b[1..];
    }
    if b == [n] + Zeros(|b| - 1) {
      ZeroValue(b[1..]);
      assert b[1..] == Zeros(|b| - 1);
    }
  }

  lemma {:induction false} ZeroValue(b: Bytes)
    ensures Value(b) == 0 <==> b == Zeros(|b|)
  {
    if b != [] {
      ZeroValue(b[1..]);
      assert b == [b[0]] + b[1..];
      assert Zeros(|b|)[1..] == Zeros(|b| - 1) && Zeros(|b|)[0] == 0;
    }
  }

  lemma TwoBytes(f: Frame, at: nat, n: Byte)
    requires at + 2 <= 64
    ensures Field(f, at, 2) == n <==> f[at] == n && f[at + 1] == 0
  {
    hide Value;
    SmallValue(f[at..at + 2], n);
    assert f[at..at + 2] == [f[at], f[at + 1]];
    assert [n] + Zeros(1) == [n, 0];
  }

  lemma FourBytes(f: Frame, at: nat, n: Byte)
    requires at + 4 <= 64
    ensures Field(f, at, 4) == n <==> f[at..at + 4] == [n, 0, 0, 0]
  {
    hide Value;
    SmallValue(f[at..at + 4], n);
    assert [n] + Zeros(3) == [n, 0, 0, 0];
  }

  lemma MagicBytes(f: Frame)
    ensures Field(f, 0, 4) == MAGIC <==> f[0..4] == [0x53, 0x48, 0x4c, 0x31]
  {
    hide Value;
    LEValue(f[0..4]);
    ValueLE(MAGIC, 4);
    assert LE(MAGIC, 4) == [0x53, 0x48, 0x4c, 0x31];
  }

  lemma DurationBytes(f: Frame)
    ensures Field(f, 40, 4) == DURATION <==> f[40..44] == [0x30, 0x75, 0, 0]
  {
    hide Value;
    LEValue(f[40..44]);
    ValueLE(DURATION, 4);
    assert LE(DURATION, 4) == [0x30, 0x75, 0, 0];
  }

  /** The header of the frame as the parser reads it, and as it stands there. */
  lemma HeaderBytes(s: State, f: Frame, kind: Byte, part: Byte, total: Byte)
    requires s.count < 100 && 1 <= kind <= 6
    ensures WellFramed(s, f) && Field(f, 6, 2) == kind && Field(f, 12, 2) == part && Field(f, 14, 2) == total
       <==> Says(f, s.target, s.count + 1, kind, part, total)
  {
    hide Field;
    MagicBytes(f);
    TwoBytes(f, 4, 1);
    TwoBytes(f, 6, kind);
    FourBytes(f, 8, s.count + 1);
    TwoBytes(f, 12, part);
    TwoBytes(f, 14, total);
    var b := f[..16];
    assert f[0..4] == b[0..4] && f[8..12] == b[8..12];
    assert b == b[0..4] + [b[4], b[5], b[6], b[7]] + b[8..12] + [b[12], b[13], b[14], b[15]];
  }

  lemma ZeroBytes(f: Frame, from: nat, to: nat)
    requires from <= to <= 64
    ensures f[from..to] == Zeros(to - from) <==> forall k | from <= k < to :: f[k] == 0
  {
    if f[from..to] == Zeros(to - from) {
      forall k | from <= k < to
        ensures f[k] == 0
      {
        assert f[k] == f[from..to][k - from];
      }
    }
  }

  lemma StopBytes(s: State, f: Frame)
    requires s.count < 100
    ensures WellFramed(s, f) && Field(f, 6, 2) == STOP && StopFits(s, f)
       <==> !s.stopped && !s.acknowledged && s.count != 0 && Stop(f, s.target, s.count + 1)
  {
    hide Field, WellFramed, Says;
    HeaderBytes(s, f, STOP, 0, 1);
    FourBytes(f, 32, f[32]);
    assert f[32..36] == [f[32]] + f[33..36];
    ZeroBytes(f, 48, 64);
    if 1 <= Field(f, 32, 4) <= 7 {
      FourBytes(f, 32, Field(f, 32, 4));
    }
  }

  lemma HelloBytes(s: State, f: Frame)
    requires s.count == 0
    ensures WellFramed(s, f) && HelloFits(f) <==> Hello(f, s.target)
  {
    hide Field, WellFramed, Says;
    HeaderBytes(s, f, HELLO, 0, 1);
    FourBytes(f, 32, 0);
    FourBytes(f, 36, 3);
    FourBytes(f, 40, 0);
    ZeroBytes(f, 40, 44);
    ZeroBytes(f, 44, 48);
    assert Zeros(4) == [0, 0, 0, 0];
  }

  lemma AdmissionBytes(s: State, f: Frame)
    requires s.count == 0
    ensures WellFramed(s, f) && AdmissionFits(f) <==> Admission(f, s.target)
  {
    hide Field, WellFramed, Says;
    HeaderBytes(s, f, ADMISSION, 0, 1);
    DurationBytes(f);
    FourBytes(f, 44, 0);
    EightZeros(f, 48);
    EightZeros(f, 56);
  }

  lemma EightZeros(f: Frame, at: nat)
    requires at + 8 <= 64
    ensures Field(f, at, 8) == 0 <==> f[at..at + 8] == [0, 0, 0, 0, 0, 0, 0, 0]
  {
    ZeroValue(f[at..at + 8]);
    assert Zeros(8) == [0, 0, 0, 0, 0, 0, 0, 0];
  }

  lemma AckBytes(s: State, f: Frame)
    requires s.count < 100
    ensures WellFramed(s, f) && AckFits(s, f) <==> !s.acknowledged && Acknowledgement(f, s.target, s.count + 1)
  {
    hide Field, WellFramed, Says;
    HeaderBytes(s, f, ACK, 0, 1);
    FourBytes(f, 32, 1);
    ZeroBytes(f, 36, 64);
    assert f[32..36] == [f[32], f[33], f[34], f[35]];
  }

  lemma SampleBytes(s: State, f: Frame)
    requires s.count < 100
    ensures WellFramed(s, f) && Field(f, 6, 2) == SAMPLE && SampleFits(s, f)
       <==> !s.stopped && s.parts == 0 && s.samples < 18
            && Sample(f, s.target, s.count + 1, s.samples, Completed(s.admissionOnly, s.samples))
  {
    hide Field, WellFramed, Says;
    if s.samples < 18 {
      HeaderBytes(s, f, SAMPLE, s.samples, 18);
      FourBytes(f, 60, Completed(s.admissionOnly, s.samples));
    }
  }

  lemma PartBytes(s: State, f: Frame)
    requires s.count < 100
    ensures WellFramed(s, f) && Field(f, 6, 2) == SETTLEMENT && PartFits(s, f)
       <==> (s.samples == 18 || s.stopped) && s.parts < 24 && Part(f, s.target, s.count + 1, s.parts)
  {
    hide Field, WellFramed, Says;
    if s.parts < 24 {
      HeaderBytes(s, f, SETTLEMENT, s.parts, 24);
    }
  }

  // ----- the parser lets exactly these through

  ghost predicate Seen(frames: seq<Frame>, kind: Byte) {
    exists g <- frames :: g[6] == kind
  }

  /** A parser that accepted these frames. */
  ghost predicate Tracks(s: State, frames: seq<Frame>) {
    && s.Valid() && !s.failed && s.count == |frames|
    && s.samples == Number(frames, 3) <= 18 && s.parts == Number(frames, 5)
    && s.stopped == Seen(frames, 4) && s.acknowledged == Seen(frames, 6)
    && |Gathered(frames)| == 32 * s.parts && s.settlement[..32 * s.parts] == Gathered(frames)
    && (frames == [] ==> s.samples == s.parts == 0 && !s.stopped && !s.acknowledged)
    && (frames != [] && s.worker ==> |frames| == 1 + s.samples + s.parts + Bit(s.stopped) && !s.acknowledged)
    && (frames != [] && !s.worker ==> |frames| == 1 + Bit(s.stopped) + Bit(s.acknowledged))
  }

  lemma OneMore(frames: seq<Frame>, f: Frame)
    ensures forall kind :: Number(frames + [f], kind) == Number(frames, kind) + Bit(f[6] == kind)
    ensures Gathered(frames + [f]) == Gathered(frames) + if f[6] == 5 then f[32..] else []
    ensures forall kind: Byte :: Seen(frames + [f], kind) <==> Seen(frames, kind) || f[6] == kind
  {
    var more := frames + [f];
    assert more[..|more| - 1] == frames && more[|more| - 1] == f;
    forall kind: Byte
      ensures Seen(more, kind) <==> Seen(frames, kind) || f[6] == kind
    {
      assert f in more;
      assert forall g :: g in more <==> g in frames || g == f;
    }
  }

  /** What the fields say of the kind. */
  lemma KindByte(f: Frame, kind: Byte)
    ensures Field(f, 6, 2) == kind <==> f[6] == kind && f[7] == 0
  {
    TwoBytes(f, 6, kind);
  }

  lemma ControllerStep(s: State, earlier: seq<Frame>, f: Frame, h: Hash)
    requires Tracks(s, earlier) && !s.worker
    ensures !Accept(s, f, h).failed <==> NextOfController(s.target, earlier, f)
    ensures !Accept(s, f, h).failed ==> Tracks(Accept(s, f, h), earlier + [f])
  {
    hide Field, WellFramed, StopFits, Decode, WithPart, Number, Gathered, Says, FromController;
    OneMore(earlier, f);
    StopBytes(s, f);
    KindByte(f, STOP);
    if Field(f, 6, 2) != STOP { NotAStop(s, earlier, f, h); }
    else { SaysKind(f, s.target, s.count + 1); }
  }

  lemma SaysKind(f: Frame, target: Digest, number: Byte)
    ensures forall kind, part, total :: Says(f, target, number, kind, part, total) ==> f[6] == kind && f[7] == 0
  {
    forall kind, part, total | Says(f, target, number, kind, part, total)
      ensures f[6] == kind && f[7] == 0
    {
      assert f[..16][6] == kind && f[..16][7] == 0;
    }
  }

  lemma NotAStop(s: State, earlier: seq<Frame>, f: Frame, h: Hash)
    requires Tracks(s, earlier) && !s.worker && Field(f, 6, 2) != STOP
    ensures s.count < 3 && WellFramed(s, f) && !FromController(s, f).failed <==> NextOfController(s.target, earlier, f)
    ensures s.count < 3 && WellFramed(s, f) && !FromController(s, f).failed ==>
        Tracks(FromController(s, f), earlier + [f])
  {
    hide Field, WellFramed, Decode, WithPart, Number, Gathered, Says, AckFits, AdmissionFits;
    OneMore(earlier, f);
    AckBytes(s, f);
    KindByte(f, STOP);
    SaysKind(f, s.target, s.count + 1);
    if earlier == [] { AdmissionBytes(s, f); }
    FitsKind(s, f);
  }

  lemma FitsKind(s: State, f: Frame)
    ensures AdmissionFits(f) ==> f[6] == 2
    ensures AckFits(s, f) ==> f[6] == 6
  {
    KindByte(f, ADMISSION);
    KindByte(f, ACK);
  }

  lemma PartStored(s: State, earlier: seq<Frame>, f: Frame)
    requires Tracks(s, earlier) && s.parts < 24
    ensures WithPart(s, f).settlement[..32 * (s.parts + 1)] == Gathered(earlier) + f[32..]
    ensures s.parts == 23 ==> WithPart(s, f).settlement == Gathered(earlier) + f[32..]
  {
    hide Number, Gathered;
    var t := WithPart(s, f);
    assert t.settlement[..32 * (s.parts + 1)] == s.settlement[..32 * s.parts] + f[32..];
    if s.parts == 23 { assert t.settlement[..768] == t.settlement; }
  }

  lemma WorkerPart(s: State, earlier: seq<Frame>, f: Frame, h: Hash)
    requires Tracks(s, earlier) && s.worker && earlier != []
    ensures var ok := s.count < 44 && WellFramed(s, f) && f[6] == 5 && !FromWorker(s, f, h).failed;
            && (ok <==> NextOfWorker(s.target, s.admissionOnly, earlier, f, h) && f[6] == 5)
            && (ok ==> Tracks(FromWorker(s, f, h), earlier + [f]))
  {
    hide Field, WellFramed, Decode, Number, Gathered, Says, SampleFits, PartFits, Patched;
    OneMore(earlier, f);
    PartBytes(s, f);
    KindByte(f, SETTLEMENT);
    KindByte(f, SAMPLE);
    SaysKind(f, s.target, s.count + 1);
    if s.parts < 24 { PartStored(s, earlier, f); }
  }

  lemma WorkerSample(s: State, earlier: seq<Frame>, f: Frame, h: Hash)
    requires Tracks(s, earlier) && s.worker && earlier != [] && Field(f, 6, 2) != STOP && f[6] != 5
    ensures var ok := s.count < 44 && WellFramed(s, f) && !FromWorker(s, f, h).failed;
            && (ok <==> NextOfWorker(s.target, s.admissionOnly, earlier, f, h))
            && (ok ==> Tracks(FromWorker(s, f, h), earlier + [f]))
  {
    hide Field, WellFramed, Decode, Number, Gathered, Says, SampleFits, PartFits, WithPart;
    OneMore(earlier, f);
    SampleBytes(s, f);
    KindByte(f, STOP);
    KindByte(f, SAMPLE);
    KindByte(f, SETTLEMENT);
    SaysKind(f, s.target, s.count + 1);
  }

  lemma WorkerHello(s: State, f: Frame, h: Hash)
    requires Tracks(s, []) && s.worker
    ensures var ok := WellFramed(s, f) && Field(f, 6, 2) != STOP && !FromWorker(s, f, h).failed;
            && (ok <==> Hello(f, s.target))
            && (ok ==> Tracks(FromWorker(s, f, h), [f]))
  {
    hide Field, WellFramed, Decode, Number, Gathered, Says, WithPart;
    OneMore([], f);
    assert [] + [f] == [f];
    HelloBytes(s, f);
    KindByte(f, HELLO);
  }

  lemma WorkerStop(s: State, earlier: seq<Frame>, f: Frame, h: Hash)
    requires Tracks(s, earlier) && s.worker && Field(f, 6, 2) == STOP
    ensures !Accept(s, f, h).failed <==> NextOfWorker(s.target, s.admissionOnly, earlier, f, h)
    ensures !Accept(s, f, h).failed ==> Tracks(Accept(s, f, h), earlier + [f])
  {
    hide Field, WellFramed, StopFits, Decode, FromWorker, Number, Gathered, Says;
    OneMore(earlier, f);
    StopBytes(s, f);
    KindByte(f, STOP);
    SaysKind(f, s.target, s.count + 1);
  }

  lemma WorkerStep(s: State, earlier: seq<Frame>, f: Frame, h: Hash)
    requires Tracks(s, earlier) && s.worker
    ensures !Accept(s, f, h).failed <==> NextOfWorker(s.target, s.admissionOnly, earlier, f, h)
    ensures !Accept(s, f, h).failed ==> Tracks(Accept(s, f, h), earlier + [f])
  {
    hide Field, WellFramed, StopFits, Decode, FromWorker, Says, Number, Gathered;
    KindByte(f, STOP);
    if Field(f, 6, 2) == STOP {
      WorkerStop(s, earlier, f, h);
    } else if earlier == [] {
      WorkerHello(s, f, h);
      assert [] + [f] == [f];
    } else if f[6] == 5 {
      WorkerPart(s, earlier, f, h);
    } else {
      WorkerSample(s, earlier, f, h);
    }
  }

  /** Each frame is a rightful next one. */
  predicate Rightful(target: Digest, worker: bool, admissionOnly: bool, frames: seq<Frame>, h: Hash) {
    forall i | 0 <= i < |frames| :: Next(target, worker, admissionOnly, frames[..i], frames[i], h)
  }

  lemma RightfulAt(target: Digest, worker: bool, admissionOnly: bool, frames: seq<Frame>, h: Hash, i: nat)
    requires Rightful(target, worker, admissionOnly, frames, h) && i < |frames|
    ensures Next(target, worker, admissionOnly, frames[..i], frames[i], h)
  {
    hide Next;
  }

  lemma RightfulMore(target: Digest, worker: bool, admissionOnly: bool, earlier: seq<Frame>, f: Frame, h: Hash)
    ensures Rightful(target, worker, admissionOnly, earlier + [f], h)
       <==> Rightful(target, worker, admissionOnly, earlier, h) && Next(target, worker, admissionOnly, earlier, f, h)
  {
    hide Next;
    var more := earlier + [f];
    assert more[..|earlier|] == earlier && more[|earlier|] == f;
    assert forall i | 0 <= i < |earlier| :: more[..i] == earlier[..i] && more[i] == earlier[i];
  }

  /** The parser lets a run of frames through if and only if each is a rightful next one. */
  lemma {:induction false} Exactly(target: Digest, worker: bool, admissionOnly: bool, frames: seq<Frame>, h: Hash)
    ensures var t := Feed(Fresh(target, worker, admissionOnly), frames, h);
            && (!t.failed <==> Rightful(target, worker, admissionOnly, frames, h))
            && (!t.failed ==> Tracks(t, frames))
  {
    hide Accept, Next, Tracks;
    var start := Fresh(target, worker, admissionOnly);
    if frames == [] {
      FreshTracks(target, worker, admissionOnly);
    } else {
      hide Rightful;
      var n := |frames| - 1;
      var earlier := frames[..n];
      var s := Feed(start, earlier, h);
      Exactly(target, worker, admissionOnly, earlier, h);
      RightfulMore(target, worker, admissionOnly, earlier, frames[n], h);
      assert earlier + [frames[n]] == frames;
      if s.failed {
        FailedStays(s, frames[n], h);
      } else {
        Step(s, earlier, frames[n], h);
      }
    }
  }

  lemma FreshTracks(target: Digest, worker: bool, admissionOnly: bool)
    ensures Tracks(Fresh(target, worker, admissionOnly), [])
  {
  }

  lemma FailedStays(s: State, f: Frame, h: Hash)
    requires s.Valid() && s.failed
    ensures Accept(s, f, h).failed
  {
  }

  lemma Step(s: State, earlier: seq<Frame>, f: Frame, h: Hash)
    requires Tracks(s, earlier)
    ensures !Accept(s, f, h).failed <==> Next(s.target, s.worker, s.admissionOnly, earlier, f, h)
    ensures !Accept(s, f, h).failed ==> Tracks(Accept(s, f, h), earlier + [f])
  {
    hide Accept, Tracks, NextOfWorker, NextOfController;
    TracksSays(s, earlier);
    if s.worker { WorkerStep(s, earlier, f, h); } else { ControllerStep(s, earlier, f, h); }
  }

  lemma TracksSays(s: State, earlier: seq<Frame>)
    requires Tracks(s, earlier)
    ensures s.Valid() && !s.failed
  {
  }

  lemma SaysNumber(f: Frame, target: Digest, number: Byte)
    requires Says(f, target, number, f[6], f[12], f[14])
    ensures f[..6] == [0x53, 0x48, 0x4c, 0x31, 1, 0] && f[8..12] == [number, 0, 0, 0] && f[16..32] == target[..16]
  {
    assert f[..6] == f[..16][..6] && f[8..12] == f[..16][8..12];
  }

  /** Every frame of a run that did not fail carries the magic, the version, its own
      number and the target. */
  lemma EachNumbered(target: Digest, worker: bool, admissionOnly: bool, frames: seq<Frame>, h: Hash, i: nat)
    requires i < |frames| && !Feed(Fresh(target, worker, admissionOnly), frames, h).failed
    ensures i < if worker then 44 else 3
    ensures frames[i][..6] == [0x53, 0x48, 0x4c, 0x31, 1, 0] && frames[i][8..12] == [i + 1, 0, 0, 0]
    ensures frames[i][16..32] == target[..16]
  {
    hide Feed, Fresh, Tracks, Says, Next, Rightful;
    Exactly(target, worker, admissionOnly, frames, h);
    RightfulAt(target, worker, admissionOnly, frames, h, i);
    NextSays(target, worker, admissionOnly, frames[..i], frames[i], h);
    SaysNumber(frames[i], target, i + 1);
  }

  lemma NextSays(target: Digest, worker: bool, admissionOnly: bool, earlier: seq<Frame>, f: Frame, h: Hash)
    requires Next(target, worker, admissionOnly, earlier, f, h)
    ensures |earlier| < if worker then 44 else 3
    ensures Says(f, target, |earlier| + 1, f[6], f[12], f[14])
  {
    hide Says, Decode, Number, Gathered;
    SaysWhich(f);
  }

  lemma SaysWhich(f: Frame)
    ensures forall target, number, kind, part, total :: Says(f, target, number, kind, part, total)
              ==> kind == f[6] && part == f[12] && total == f[14]
  {
    forall target, number, kind, part, total | Says(f, target, number, kind, part, total)
      ensures kind == f[6] && part == f[12] && total == f[14]
    {
      var b := f[..16];
      assert b[6] == kind && b[12] == part && b[14] == total;
    }
  }

  /** The samples come directly behind the hello and in turn: frame i is the sample i - 1,
      and it gives the calls completed by then. */
  lemma SamplesInTurn(target: Digest, admissionOnly: bool, frames: seq<Frame>, h: Hash, i: nat)
    requires i < |frames| && !Feed(Fresh(target, true, admissionOnly), frames, h).failed && frames[i][6] == 3
    ensures 1 <= i <= 18 && frames[i][12] == i - 1
    ensures frames[i][60..64] == [if admissionOnly then 0 else if i == 18 then 16 else i - 1, 0, 0, 0]
  {
    hide Feed, Tracks, NextOfWorker, Rightful;
    var start, earlier := Fresh(target, true, admissionOnly), frames[..i];
    NeverRefused(start, frames, i, h);
    Exactly(target, true, admissionOnly, earlier, h);
    Exactly(target, true, admissionOnly, frames, h);
    RightfulAt(target, true, admissionOnly, frames, h, i);
    NextSample(Feed(start, earlier, h), earlier, frames[i], h);
  }

  lemma NextSample(s: State, earlier: seq<Frame>, f: Frame, h: Hash)
    requires Tracks(s, earlier) && s.worker && f[6] == 3 && NextOfWorker(s.target, s.admissionOnly, earlier, f, h)
    ensures 1 <= |earlier| <= 18 && f[12] == |earlier| - 1
    ensures f[60..64] == [if s.admissionOnly then 0 else if |earlier| == 18 then 16 else |earlier| - 1, 0, 0, 0]
  {
    hide Says, Decode, Number, Gathered;
    SaysWhich(f);
  }
}
