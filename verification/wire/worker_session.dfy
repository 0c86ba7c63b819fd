/** The worker's side of the wire: hello, admission, samples while it works, an optional
    stop, the settlement and its acknowledgement. Whatever the work does and whatever the
    link answers, the frames it sends are the ones the controller's parser accepts. */
module WorkerSessions {
  import opened WireBytes
  import opened Settlements
  import opened Channels
  import opened Frames
  import CryptoLedgers

  /** The link to the controller. Each call may answer anything. */
  class WorkerLink {
    /** The frames handed over, up to the first send that failed. */
    ghost var delivered: seq<Frame>
    ghost var lost: bool

    constructor ()
      ensures delivered == [] && !lost
    {
      delivered, lost := [], false;
    }

    method Send(f: Frame) returns (ok: bool)
      modifies this
      ensures lost == (old(lost) || !ok)
      ensures delivered == if lost then old(delivered) else old(delivered) + [f]
    {
      ok := *;
      if !ok { lost := true; }
      if !lost { delivered := delivered + [f]; }
    }

    method Receive() returns (ok: bool, f: Frame)
    {
      ok, f := *, *;
    }

    /** Nonblocking: no data is not a failure. An exception is a failure of the caller. */
    method PollControl() returns (threw: bool, ok: bool, available: bool, f: Frame)
    {
      threw, ok, available, f := *, *, *, *;
    }

    /** Measures, and may record what it measured in the ledger. */
    method Checkpoint(l: Ledger) returns (ok: bool, measured: Ledger)
      requires l.Valid()
      ensures measured.Valid()
    {
      ok, measured := *, *;
      if !measured.Valid() { measured := l; }
    }
  }

  /** Latches the first native failure. */
  function Failed(n: Observation, stage: string, uncertain: bool): (r: Observation)
    ensures r.calls == n.calls && r.stopped
  {
    var first := if n.stopped then n else n.(firstFailure := stage, firstFailureUnknown := uncertain);
    first.(stopped := true, unknown := n.unknown || uncertain)
  }

  /** Binds an admission to a ledger nothing has happened to yet. */
  function Bound(l: Ledger, origin: U64, working: U64, commit: U64, handles: U32): (r: Ledger)
    ensures r.abiCalls == l.abiCalls
  {
    l.(clockInitialized := true, counters := l.counters.(handleLimit := handles),
       limits := l.limits.(startMs := origin, lastMs := origin, elapsedMs := 0, maxElapsedMs := DURATION,
                           workingSetLimitBytes := working, commitLimitBytes := commit))
  }

  lemma FeedOne(s: State, frames: seq<Frame>, f: Frame, h: Hash)
    requires s.Valid()
    ensures Feed(s, frames + [f], h) == Accept(Feed(s, frames, h), f, h)
  {
    assert (frames + [f])[..|frames|] == frames;
  }

  class Session {
    const link: WorkerLink
    const target: Digest
    const admissionOnly: bool
    const h: Hash
    const controller: Channel
    var number: nat
    var samples: nat
    var ledger: Ledger
    var native: Observation
    /** The controller's parser, fed with what was delivered. */
    ghost var peer: State

    constructor (link: WorkerLink, target: Digest, admissionOnly: bool, h: Hash)
      requires link.delivered == [] && !link.lost
      ensures this.link == link && this.target == target && this.admissionOnly == admissionOnly && this.h == h
      ensures Valid() && Tracked() && fresh(controller) && fresh(controller.settlement)
      ensures peer == Fresh(target, true, admissionOnly) && number == 1 && samples == 0
    {
      this.link, this.target, this.admissionOnly, this.h := link, target, admissionOnly, h;
      controller := new Channel(target, false, false);
      number, samples, ledger, native := 1, 0, FreshLedger(), FreshObservation();
      peer := Fresh(target, true, admissionOnly);
    }

    ghost predicate Valid()
      reads this, controller
    {
      controller.Valid() && ledger.Valid() && native.Valid() && peer.Valid() && peer.target == target
          && peer.admissionOnly == admissionOnly
    }

    /** Nothing that was delivered was refused. */
    ghost predicate Tracked()
      reads this, link, controller
    {
      && Valid() && !peer.failed
      && peer == Feed(Fresh(target, true, admissionOnly), link.delivered, h)
      && |link.delivered| == peer.count
    }

    /** The next frame is the one the controller expects. */
    ghost predicate InStep()
      reads this, link, controller
    {
      && Tracked() && number == samples + 2 && samples <= 18
      && (!link.lost ==> Sampling(peer, target) && peer.samples == samples)
    }

    method Send(f: Frame) returns (ok: bool)
      requires Tracked()
      requires !link.lost ==> !Accept(peer, f, h).failed && Accept(peer, f, h).count == peer.count + 1
      modifies this`peer, link
      ensures Tracked() && link.lost == (old(link.lost) || !ok)
      ensures peer == if link.lost then old(peer) else Accept(old(peer), f, h)
    {
      hide Accept, Fresh;
      FeedOne(Fresh(target, true, admissionOnly), link.delivered, f, h);
      ok := link.Send(f);
      if !link.lost { peer := Accept(peer, f, h); }
    }

    method CheckClock(step: string) returns (ok: bool)
      requires Valid()
      modifies this`ledger
      ensures Valid() && ledger.counters == old(ledger.counters)
      ensures ledger.limits == old(ledger.limits).(startMs := ledger.limits.startMs, lastMs := ledger.limits.lastMs,
                                                   elapsedMs := ledger.limits.elapsedMs)
    {
      var reading: Option<U64> := *;
      var result := CryptoLedgers.Clocked(ledger, step, reading);
      ok, ledger := result.0, result.1;
    }

    /** May new work start? A stop from the controller closes it for good. */
    method WorkerAdmission() returns (ok: bool)
      requires InStep()
      modifies this`ledger, controller, controller.settlement
      ensures InStep()
      ensures ok ==> !controller.stopped
    {
      hide Feed, Accept, Sampling;
      ok := CheckClock("before_work");
      if !ok { return; }
      var threw, answered, available, control := link.PollControl();
      if threw { return false; }
      var fine := answered;
      if fine && available {
        fine := controller.AcceptFrame(control, h);
        if fine {
          var kind := Get(control, 6, 2);
          fine := kind == STOP;
        }
      }
      if !fine || controller.stopped {
        ledger := CryptoLedgers.Stopped(ledger, "supervisor_stop", -1, "ADMISSION_BLOCKED");
        return false;
      }
    }

    /** Sends the next sample, if there is one left to send. */
    method WorkerSample() returns (ok: bool)
      requires InStep()
      modifies this, link, controller, controller.settlement
      ensures InStep()
    {
      hide Feed, Accept, Fresh, Frames.Sample;
      ok := WorkerAdmission();
      if !ok { return; }
      ok, ledger := link.Checkpoint(ledger);
      if !ok { return; }
      if samples >= 18 { return false; }
      var n := samples;
      var l := ledger.limits;
      if !link.lost { SampleAccepted(peer, target, l.lastMs, l.peakWorkingSet, l.peakCommit,
          ledger.counters.handlesLast, h); }
      var f := BuildSample(target, number, n, l.lastMs, l.peakWorkingSet, l.peakCommit, ledger.counters.handlesLast,
          Completed(admissionOnly, n));
      number, samples := number + 1, samples + 1;
      ok := Send(f);
    }

    /** Any work at all: it rewrites the ledger and the observation as it likes, asks for
        admission and asks for samples, as often as it likes, and may throw. */
    method Work() returns (threw: bool)
      requires InStep()
      modifies this, link, controller, controller.settlement
      ensures InStep()
    {
      var steps: int := *;
      for i := 0 to if steps < 0 then 0 else steps
        invariant InStep()
      {
        var l: Ledger, n: Observation := *, *;
        if l.Valid() && n.Valid() { ledger, native := l, n; }
        var choice: nat := *;
        if choice == 0 {
          var ok := WorkerAdmission();
        } else if choice == 1 {
          var ok := WorkerSample();
        }
      }
      threw := *;
    }

    method Greet(pid: U32, image: Digest) returns (ok: bool)
      requires Tracked() && peer == Fresh(target, true, admissionOnly) && number == 1 && samples == 0
      requires pid != 0 && !link.lost
      modifies this, link
      ensures Tracked() && (ok ==> InStep() && !link.lost)
    {
      hide Feed, Accept, Value;
      HelloAccepted(target, admissionOnly, pid, image, h);
      var hello := BuildHello(target, pid, image);
      number := 2;
      ok := Send(hello);
    }

    /** Waits for the controller's admission: exactly the approved limits. */
    method Admit(working: U64, commit: U64, handles: U32) returns (ok: bool)
      requires InStep() && !link.lost
      modifies this`ledger, this`native, controller, controller.settlement
      ensures InStep() && !link.lost
      ensures ok ==> ledger.counters.handleLimit == handles && ledger.limits.workingSetLimitBytes == working
                     && ledger.limits.commitLimitBytes == commit && ledger.limits.maxElapsedMs == DURATION
    {
      hide Feed, Accept, Value, FreshLedger, FreshObservation, Sampling;
      var received;
      ok, received := link.Receive();
      if !ok { return; }
      ok := controller.AcceptFrame(received, h);
      if !ok { return; }
      assert Power(8) == 0x1_0000_0000_0000_0000 && Power(4) == 0x1_0000_0000;
      var origin := Get(received, 32, 8);
      var duration := Get(received, 40, 4);
      var bound := Get(received, 44, 4);
      var w := Get(received, 48, 8);
      var c := Get(received, 56, 8);
      if w != working || c != commit || bound != handles { return false; }
      if duration != DURATION || w == 0 || c == 0 || bound == 0 { return false; }
      ledger := Bound(FreshLedger(), origin, working, commit, handles);
      native := FreshObservation();
      ok := CheckClock("before_work");
    }

    /** The settlement parts, one after the other. */
    method SendParts(block: Bytes) returns (ok: bool)
      requires Tracked() && |block| == 768 && Decode(block, h).Some? && number <= 21
      requires !link.lost ==> Collecting(peer, target, block, 0) && peer.count == number - 1
      modifies this, link
      ensures Tracked() && ledger == old(ledger) && native == old(native)
      ensures ok ==> number == old(number)
      ensures ok && !link.lost ==> Collecting(peer, target, block, 24)
      ensures !ok ==> link.lost
    {
      hide Feed, Accept, Decode;
      var frames := SettlementFrames(block, target, number);
      ok := true;
      for i := 0 to 24
        invariant Tracked() && number == old(number) && ledger == old(ledger) && native == old(native)
        invariant !link.lost ==> Collecting(peer, target, block, i) && peer.count == number - 1 + i
      {
        if !link.lost { PartAccepted(peer, target, block, i, h); }
        ok := Send(frames[i]);
        if !ok { return; }
      }
    }

    /** A stop, unless everything went well. */
    method StopUnlessWell() returns (ok: bool)
      requires InStep()
      modifies this`number, this`peer, link
      ensures Tracked() && 2 <= number <= 21 && (!ok ==> link.lost)
      ensures ok && !link.lost ==>
        peer.worker && !peer.failed && (peer.samples == 18 || peer.stopped) && peer.parts == 0
            && peer.count == number - 1 <= 20
    {
      hide Feed, Accept;
      ok := true;
      if ledger.stopped || samples != 18 {
        if !link.lost { StopAccepted(peer, target, h); }
        var stop := BuildStop(target, number);
        number := number + 1;
        ok := Send(stop);
      }
    }

    /** Waits for the acknowledgement. */
    method AwaitAck() returns (ok: bool)
      requires Tracked()
      modifies controller, controller.settlement
      ensures Tracked()
    {
      hide Feed, Accept;
      var received;
      ok, received := link.Receive();
      if !ok { return; }
      ok := controller.AcceptFrame(received, h);
      if !ok { return; }
      var kind := Get(received, 6, 2);
      ok := kind == ACK;
    }

    /** What comes after the work: a stop unless all went well, the settlement, and the
        wait for its acknowledgement. */
    method Close() returns (ok: bool, ghost settled: bool)
      requires InStep()
      modifies this, link, controller, controller.settlement
      ensures Tracked() && ledger == old(ledger) && native == old(native)
      ensures ok ==> settled
      ensures settled && !link.lost ==> peer.parts == 24 && Decode(peer.settlement, h) == Some(Record(ledger, native))
    {
      hide Feed, Accept, Decode, Encode;
      settled := false;
      ok := StopUnlessWell();
      if !ok { return; }
      var encoded, block := EncodeSettlement(ledger, native, h);
      if !encoded { return false, settled; }
      DecodeEncode(ledger, native, h);
      ghost var sent := block[..];
      if !link.lost { CollectingFromZero(peer, target, sent); }
      ok := SendParts(block[..]);
      if !ok { return; }
      settled := true;
      assert !link.lost ==> peer.settlement[..768] == peer.settlement && sent[..768] == sent;
      ok := AwaitAck();
    }
  }

  /** A whole session. As long as no send fails, the controller's parser refuses nothing,
      the cap of 44 frames is never reached by a refused one, and once the settlement was
      sent the parser holds the worker's own record. */
  method RunSession(link: WorkerLink, target: Digest, admissionOnly: bool, pid: U32, image: Digest,
                    working: U64, commit: U64, handles: U32, h: Hash)
    returns (ok: bool, ghost peer: State, ghost settled: bool, ghost record: Record)
    requires link.delivered == [] && !link.lost
    modifies link
    ensures peer.Valid() && peer == Feed(Fresh(target, true, admissionOnly), link.delivered, h)
    ensures !peer.failed && |link.delivered| == peer.count <= 44
    ensures ok ==> settled
    ensures settled && !link.lost ==> peer.parts == 24 && Decode(peer.settlement, h) == Some(record)
  {
    hide Feed, Accept, Decode;
    var session := new Session(link, target, admissionOnly, h);
    ok, settled, record := false, false, Record(session.ledger, session.native);
    if pid != 0 {
      ok := session.Greet(pid, image);
      if ok { ok := session.Admit(working, commit, handles); }
      if ok {
        var threw := session.Work();
        if threw {
          session.ledger := session.ledger.(settlementUnknown := true);
          session.native := Failed(session.native, "supervisor_stop", true);
        }
        ok, settled := session.Close();
        record := Record(session.ledger, session.native);
      }
    }
    peer := session.peer;
  }
}
