/** The serial adapter over one grant, one supervisor and one worker channel: admission,
    start, received frames, settlement. */
module AdmissionControllers {
  import opened WireBytes
  import opened Settlements
  import opened Channels
  import opened PermissionLog
  import opened GrantFlows
  import opened Supervisors

  class Core {
    const world: World
    const flow: GrantFlow
    const supervisor: Supervisor
    const h: Hash
    var channel: Channel
    var consumption: ConsumptionRecord
    var worker: WorkerStart
    var custodyUnsettled: bool
    var logsComplete: bool
    var ownerHandlesClosed: bool

    constructor (world: World, flow: GrantFlow, h: Hash)
      requires flow.world == world && flow.Valid() && world.log == []
      ensures this.world == world && this.flow == flow && this.h == h && Valid()
      ensures fresh(supervisor) && fresh(channel) && fresh(channel.settlement) && !custodyUnsettled
          && worker == NO_WORKER
      ensures supervisor.phase == NotStarted && channel.count == 0
    {
      this.world, this.flow, this.h := world, flow, h;
      supervisor := new Supervisor();
      channel := new Channel(seq(32, i => 0), true, false);
      consumption, worker := flow.record, NO_WORKER;
      custodyUnsettled, logsComplete, ownerHandlesClosed := false, false, false;
    }

    ghost function Repr(): set<object>
      reads this
    {
      {this, world, flow, flow.clock, supervisor, channel, channel.settlement}
    }

    ghost predicate ValidWith(log: seq<Event>)
      reads this, flow, flow.clock, supervisor, channel
    {
      && flow.world == world && flow.ValidWith(log) && supervisor.Valid() && channel.Valid()
      && (!supervisor.started ==> NoLaunch(log))
      && (supervisor.phase == GrantUsed || supervisor.started ==>
            flow.issued && supervisor.target == flow.target && channel.target == flow.hash)
      && (supervisor.phase == Running ==> worker.Running() && Launched(flow.hash, supervisor.launchedAt, worker) in log)
      && (worker != NO_WORKER ==> supervisor.started) && channel.worker
    }

    ghost predicate Valid()
      reads Repr()
    {
      ValidWith(world.log)
    }

    /** A reading or a frame on the log changes nothing here. */
    lemma Untouched(log: seq<Event>, e: Event)
      requires ValidWith(log) && Legal(log, e, world.terms) && !e.Wrote? && !e.Launched? && !e.Stepped?
      ensures ValidWith(log + [e])
    {
      flow.Untouched(log, e);
    }

    /** The grant is issued; nothing else of the controller moves. */
    method IssueGrant(p: Prompt, response: Response, current: Target, sid: string, now: Reading) returns (ok: bool)
      requires Valid() && current == world.terms.target && sid == world.terms.sid && Responded(response) in world.log
      modifies flow, flow.clock, world
      ensures Valid() && Silent(old(world.log), world.log)
      ensures old(flow.issued) ==> flow.issued && flow.hash == old(flow.hash) && flow.target == old(flow.target)
      ensures !old(flow.issued) && flow.issued ==>
          flow.target == Some(current.(userApproved := true))
          && current.ValidPreApproval()
    {
      hide Supervisor.Passed, Legal, Lawful, NoLaunch, NotSent, Writes, Silent, Target.ValidPreApproval;
      ghost var before := world.log;
      ok := flow.Issue(p, response, current, sid, now);
      WritesKeep(before, world.log);
    }

    method Admit(r: Reading, trial: string) returns (ok: bool)
      requires Valid()
      modifies Repr()
      ensures Valid() && Silent(old(world.log), world.log) && fresh(Repr() - old(Repr()))
      ensures worker == old(worker) && custodyUnsettled == old(custodyUnsettled)
      ensures ok ==> supervisor.phase == GrantUsed && flow.record.confirmed
      ensures (channel == old(channel) && channel.count == old(channel.count)) || (fresh(channel) && channel.count == 0)
      ensures flow.issued == old(flow.issued)
      ensures old(flow.issued) ==> flow.issued && flow.hash == old(flow.hash) && flow.target == old(flow.target)
    {
      hide Supervisor.Passed, GrantFlow.ValidWith, Legal, Lawful, NoLaunch, Writes, Silent;
      ghost var before := world.log;
      WritesNothing(before);
      if supervisor.phase.Terminal() || supervisor.phase != NotStarted { return false; }
      ok := flow.Prepare(r);
      if !ok {
        consumption := flow.record;
        supervisor.Refuse(OnAdmission);
        return;
      }
      ok := AdmitTarget(r, trial);
    }

    /** Consumes the grant for its own target, and opens the channel bound to it. */
    method AdmitTarget(r: Reading, trial: string) returns (ok: bool)
      requires Valid() && supervisor.phase == NotStarted && flow.issued && flow.target.Some?
      modifies Repr()
      ensures Valid() && Silent(old(world.log), world.log) && fresh(Repr() - old(Repr()))
      ensures worker == old(worker) && custodyUnsettled == old(custodyUnsettled)
      ensures ok ==> supervisor.phase == GrantUsed && flow.record.confirmed
      ensures (channel == old(channel) && channel.count == old(channel.count)) || (fresh(channel) && channel.count == 0)
      ensures flow.issued == old(flow.issued)
      ensures old(flow.issued) ==> flow.issued && flow.hash == old(flow.hash) && flow.target == old(flow.target)
    {
      hide Supervisor.Passed, GrantFlow.ValidWith, Legal, Lawful, NoLaunch, Writes, Silent;
      ghost var before := world.log;
      WritesNothing(before);
      var target := flow.target.value;
      ok := SafeId(trial);
      if ok { ok := flow.Consume(target, r.utc); }
      WritesKeep(before, world.log);
      supervisor.Admit(ok, target, r.mono);
      consumption := flow.record;
      if ok { channel := new Channel(flow.hash, true, target.AdmissionOnly()); }
    }

    /** Marks the start, checks the time once more, and launches: at most once. */
    method Start(r: Reading) returns (ok: bool)
      requires Valid()
      modifies Repr()
      ensures Valid() && fresh(Repr() - old(Repr())) && Silent(old(world.log), world.log)
      ensures ok ==> supervisor.phase == Running && worker.Running()
      ensures channel == old(channel) && channel.count == old(channel.count)
      ensures flow.issued == old(flow.issued)
      ensures old(flow.issued) ==> flow.issued && flow.hash == old(flow.hash) && flow.target == old(flow.target)
    {
      hide Supervisor.Passed, GrantFlow.ValidWith, Legal, Lawful, NoLaunch, NotSent, Writes;
      ghost var before := world.log;
      if supervisor.phase.Terminal() || supervisor.phase != GrantUsed { return false; }
      ok := flow.Start(r);
      WritesKeep(before, world.log);
      if !ok {
        consumption := flow.record;
        supervisor.Refuse(OnLaunch);
        return;
      }
      ok := Launch();
    }

    /** The launch itself, with the start on record. */
    method Launch() returns (ok: bool)
      requires Valid() && supervisor.phase == GrantUsed && Wrote(MarkStart, flow.hash, Done) in world.log
      modifies Repr()
      ensures Valid() && fresh(Repr() - old(Repr())) && Silent(old(world.log), world.log)
      ensures ok ==> supervisor.phase == Running && worker.Running()
      ensures channel == old(channel) && channel.count == old(channel.count)
      ensures flow.issued && flow.hash == old(flow.hash) && flow.target == old(flow.target)
    {
      hide Supervisor.Passed, GrantFlow.ValidWith, Legal, Lawful, NoLaunch, NotSent, Writes, Silent;
      ghost var before := world.log;
      var now;
      ok, now := CheckTime();
      SilentReading(before, now);
      NotLaunched();
      if !ok {
        supervisor.Refuse(OnLaunch);
        return;
      }
      ok := supervisor.BeginLaunch(now.utc, now.mono);
      if !ok { return; }
      ghost var read := world.log;
      ok := LaunchWorker(now.mono);
      SilentTwice(before, read, world.log);
    }

    lemma SilentReading(log: seq<Event>, r: Reading)
      ensures Silent(log, log) && Silent(log, log + [Event.Read(r, false)])
    {
    }

    lemma SilentTwice(a: seq<Event>, b: seq<Event>, c: seq<Event>)
      requires Silent(a, b) && Silent(b, c)
      ensures Silent(a, c)
    {
      assert forall i | |a| <= i < |b| :: c[i] == b[i];
    }

    method LaunchWorker(at: U64) returns (ok: bool)
      requires Valid() && supervisor.phase == StartAttempted && supervisor.launchedAt == at
      requires NoLaunch(world.log) && Wrote(MarkStart, flow.hash, Done) in world.log
      modifies this, supervisor, world
      ensures Valid() && Silent(old(world.log), world.log) && channel == old(channel)
      ensures ok ==> supervisor.phase == Running && worker.Running()
    {
      hide GrantFlow.ValidWith, Legal, Lawful, NoLaunch, NotSent, Writes;
      ghost var before := world.log;
      flow.LawfulHere(before);
      worker := world.StartSuspended(flow.hash, at);
      Launching(before, world.log);
      custodyUnsettled := worker.created || worker.creationUnknown;
      ok := supervisor.ConfirmLaunch(LaunchState(worker));
    }

    lemma NotLaunched()
      requires Valid() && supervisor.phase == GrantUsed
      ensures NoLaunch(world.log) && !supervisor.started && supervisor.target == flow.target && flow.issued
    {
    }

    /** One more look at the clock and the grant before the launch. */
    method CheckTime() returns (ok: bool, now: Reading)
      requires Valid() && supervisor.phase == GrantUsed
      modifies flow, flow.clock, world
      ensures Valid() && flow.issued && flow.hash == old(flow.hash) && flow.target == old(flow.target)
      ensures world.log == old(world.log) || world.log == old(world.log) + [Event.Read(now, false)]
    {
      hide Supervisor.Passed, GrantFlow.ValidWith, Legal, Lawful, NotSent, Writes;
      ghost var before := world.log;
      var threw;
      threw, now := world.ReadClock(false);
      if threw { return false, now; }
      ReadingIsLegal(before, now);
      Untouched(before, Event.Read(now, false));
      ok := flow.Inspect(now);
      ok := ok && Window(flow.target.value, now);
    }

    /** The launch on the log. */
    lemma Launching(before: seq<Event>, log: seq<Event>)
      requires flow.ValidWith(before) && Launches(before, log) && Lawful(log, world.terms) && flow.world == world
      ensures flow.ValidWith(log) && Silent(before, log)
    {
      hide GrantFlow.ValidWith, Lawful;
      flow.Kept(before, log);
    }

    lemma ReadingIsLegal(log: seq<Event>, r: Reading)
      ensures Legal(log, Event.Read(r, false), world.terms)
    {
    }

    method Stop()
      requires Valid()
      modifies supervisor`phase, supervisor`firstFailure
      ensures Valid() && (old(supervisor.phase).Terminal() ==> supervisor.phase == old(supervisor.phase))
      ensures supervisor.phase != Running && supervisor.started == old(supervisor.started)
      ensures supervisor.phase.Terminal() == old(supervisor.phase).Terminal()
      ensures !supervisor.phase.Terminal() ==>
          supervisor.firstFailure == if old(supervisor.firstFailure) == NoReason then OnWorker
              else old(supervisor.firstFailure)
    {
      hide Supervisor.Passed, GrantFlow.ValidWith, NoLaunch;
      if supervisor.phase.Terminal() { return; }
      supervisor.WorkerFailed();
    }

    /** What receiving and polling leave alone. */
    twostate predicate SameLaunch()
      reads this, flow, supervisor
    {
      && flow.issued == old(flow.issued) && flow.hash == old(flow.hash) && flow.target == old(flow.target)
      && supervisor.started == old(supervisor.started) && supervisor.launchedAt == old(supervisor.launchedAt)
      && supervisor.target == old(supervisor.target)
      && worker == old(worker) && custodyUnsettled == old(custodyUnsettled)
    }

    /** One frame from the worker. A hello or a sample that is reported accepted was
        accepted while work was open. */
    method Receive(f: Frame, independent: ResourceSample, r: Reading) returns (ok: bool)
      requires Valid() && Received(f) in world.log
      modifies this, flow, flow.clock, supervisor, channel, channel.settlement, world
      ensures Valid() && SameLaunch() && channel == old(channel) && fresh(Repr() - old(Repr()))
      ensures world.log == if ok && Field(f, 6, 2) == HELLO then old(world.log) + [HelloAccepted(f)] else old(world.log)
      ensures ok && Field(f, 6, 2) == HELLO ==> OwnHello(f)
      ensures ok ==>
          !channel.failed && channel.count > old(channel.count)
          && (old(channel.count) == 0 <==> Field(f, 6, 2) == HELLO)
      ensures ok && Field(f, 6, 2) in {HELLO, SAMPLE} ==> supervisor.phase == Running
    {
      hide Supervisor.Valid, GrantFlow.ValidWith, Legal, Lawful, NoLaunch, NotSent, Writes, Value, Accept, HelloFits,
          HelloOf;
      if supervisor.phase.Terminal() || supervisor.phase !in {Running, StopRequested, DeadlineExceeded} {
        return false;
      }
      ok := Parse(f, r);
      if !ok { return; }
      var open := supervisor.Poll(r.mono, true);
      if !open { Stop(); }
      ok := Follow(f, independent, r, open);
    }

    /** What an accepted frame leads to. */
    method Follow(f: Frame, independent: ResourceSample, r: Reading, open: bool) returns (ok: bool)
      requires Valid() && Received(f) in world.log && !channel.failed
      requires Field(f, 6, 2) == HELLO ==> HelloFits(f) && f[16..32] == channel.target[..16]
      modifies this, supervisor, channel, world
      ensures Valid() && SameLaunch() && channel == old(channel) && channel.count == old(channel.count)
      ensures world.log == if ok && Field(f, 6, 2) == HELLO then old(world.log) + [HelloAccepted(f)] else old(world.log)
      ensures ok && Field(f, 6, 2) == HELLO ==> OwnHello(f)
      ensures ok ==> !channel.failed
      ensures ok && Field(f, 6, 2) in {HELLO, SAMPLE} ==> supervisor.phase == Running
    {
      hide Supervisor.Valid, GrantFlow.ValidWith, Legal, Lawful, NoLaunch, NotSent, Writes, Value, HelloFits, HelloOf;
      ok := true;
      var kind := Get(f, 6, 2);
      if kind == HELLO || kind == SAMPLE {
        if !open || supervisor.phase != Running { return false; }
        if kind == HELLO { ok := ReceiveHello(f); } else { ok := ReceiveSample(f, independent, r); }
      } else if kind == STOP {
        Stop();
      }
    }

    /** The grant must still stand and the channel must accept the frame. */
    method Parse(f: Frame, r: Reading) returns (ok: bool)
      requires Valid()
      modifies flow, flow.clock, supervisor`phase, supervisor`firstFailure, channel, channel.settlement
      ensures Valid() && SameLaunch()
      ensures if ok then supervisor.phase == old(supervisor.phase) && !channel.failed
          && channel.count > old(channel.count)
          && (old(channel.count) == 0 <==> Field(f, 6, 2) == HELLO)
          && (Field(f, 6, 2) == HELLO ==> HelloFits(f) && f[16..32] == channel.target[..16])
              else supervisor.phase != Running
    {
      hide Supervisor.Passed, GrantFlow.ValidWith, NoLaunch, NotSent, Writes, Value, Accept;
      ok := flow.Inspect(r);
      HelloComesFirst(channel.Now(), f, h);
      if ok { ok := channel.AcceptFrame(f, h); }
      if !ok {
        channel.failed := true;
        Stop();
      }
    }

    /** This is the hello of the worker that was launched. */
    ghost predicate OwnHello(f: Frame)
      reads this, flow, supervisor
    {
      HelloOf(f, Launched(flow.hash, supervisor.launchedAt, worker), world.terms)
    }

    /** The hello must come from the worker that was launched, with the approved image. */
    method ReceiveHello(f: Frame) returns (ok: bool)
      requires Valid() && supervisor.phase == Running && Received(f) in world.log
      requires HelloFits(f) && f[16..32] == channel.target[..16]
      modifies this, supervisor, channel, world
      ensures Valid() && SameLaunch() && channel == old(channel)
      ensures channel.count == old(channel.count) && (ok ==> channel.failed == old(channel.failed))
      ensures world.log == if ok then old(world.log) + [HelloAccepted(f)] else old(world.log)
      ensures ok ==> supervisor.phase == Running && OwnHello(f)
    {
      hide Supervisor.Passed, GrantFlow.ValidWith, NoLaunch, NotSent, Value, HelloFits;
      ImageApproved();
      var pid := Get(f, 32, 4);
      if pid != worker.pid || flow.target.value.image[..16] != f[48..64] {
        channel.failed := true;
        Stop();
        return false;
      }
      HelloIsLegal(f);
      world.log := world.log + [HelloAccepted(f)];
      ok := true;
    }

    lemma ImageApproved()
      requires Valid() && supervisor.phase == Running
      ensures flow.target.Some? && flow.target.value.image == world.terms.target.image
    {
    }

    lemma HelloIsLegal(f: Frame)
      requires Valid() && supervisor.phase == Running && Received(f) in world.log && OwnHello(f)
      ensures ValidWith(world.log + [HelloAccepted(f)])
    {
      hide GrantFlow.ValidWith, HelloOf, Supervisor.Passed;
      assert Launched(flow.hash, supervisor.launchedAt, worker) in world.log;
      Untouched(world.log, HelloAccepted(f));
    }

    /** The sample's own time must lie between launch and receipt; the larger of the two
        observations counts. */
    method ReceiveSample(f: Frame, independent: ResourceSample, r: Reading) returns (ok: bool)
      requires Valid() && supervisor.phase == Running
      modifies supervisor
      ensures Valid() && SameLaunch() && (ok ==> supervisor.phase == Running)
    {
      hide Supervisor.Valid, Supervisor.Passed, GrantFlow.ValidWith, NoLaunch, NotSent, Value;
      assert Power(8) == 0x1_0000_0000_0000_0000 && Power(4) == 0x1_0000_0000;
      var lastMs := Get(f, 32, 8);
      var working := Get(f, 40, 8);
      var commit := Get(f, 48, 8);
      var handles := Get(f, 56, 4);
      var completed := Get(f, 60, 4);
      if lastMs < supervisor.launchedAt || lastMs > r.mono || independent.observedAt != r.mono
         || independent.working == 0 || independent.commit == 0 || independent.handles == 0 {
        Stop();
        return false;
      }
      var s := ResourceSample(independent.observedAt, Max(independent.working, working),
                              Max(independent.commit, commit),
                              Max(independent.handles, handles), completed);
      ok := supervisor.Sample(s);
      if !ok { Stop(); }
    }

    function Max(a: nat, b: nat): (m: nat)
      ensures m == a || m == b
    {
      if a < b then b else a
    }

    /** The deadline, with no frame at all. */
    method Poll(r: Reading, observer: bool) returns (ok: bool, healthy: bool)
      requires Valid()
      modifies this, flow, flow.clock, supervisor
      ensures Valid() && SameLaunch() && channel == old(channel)
      ensures ok ==> healthy && r.valid && supervisor.phase == old(supervisor.phase)
      ensures ok && supervisor.started ==>
        supervisor.launchedAt <= r.mono && r.mono - supervisor.launchedAt < supervisor.target.value.maxExecution
      ensures healthy ==> observer && r.valid
    {
      hide Supervisor.Passed, GrantFlow.ValidWith, NoLaunch, NotSent, Writes;
      ok, healthy := false, false;
      if supervisor.phase.Terminal() { return; }
      if observer && r.valid { healthy := flow.Inspect(r); }
      ok := supervisor.Poll(r.mono, healthy);
    }

    /** The first failure once the time is looked at. */
    ghost function TimeCause(r: Reading): Reason
      requires supervisor.Valid() && supervisor.started
      reads supervisor
    {
      CauseAt(supervisor.firstFailure, supervisor.lastMs, r.mono, supervisor.launchedAt,
              supervisor.target.value.maxExecution)
    }

    /** The first failure before the settlement: an earlier one, then an end that is not
        normal or cannot be trusted, then what the time says. */
    ghost function EndCause(healthy: bool, normal: bool, r: Reading): Reason
      requires supervisor.Valid() && supervisor.started
      reads supervisor
    {
      if supervisor.firstFailure == NoReason && (!healthy || !normal) then OnWorker else TimeCause(r)
    }

    /** The worker's own record; without a complete one, or with the owner's side in
        doubt, it settles nothing. */
    method WorkersRecord(sound: bool) returns (l: Ledger, n: Observation)
      requires channel.Valid()
      modifies this`logsComplete
      ensures l.Valid() && n.Valid() && (!logsComplete || !sound ==> l.settlementUnknown && n.unknown)
      ensures logsComplete == Reported()
      ensures logsComplete && sound ==> Decode(channel.settlement[..], h) == Some(Record(l, n))
    {
      hide Decode, FreshLedger, FreshObservation;
      var record := channel.Records(h);
      logsComplete := record.Some?;
      l, n := FreshLedger(), FreshObservation();
      if record.Some? { l, n := record.value.ledger, record.value.native; }
      if !logsComplete || !sound { l, n := l.(settlementUnknown := true), n.(unknown := true); }
    }

    method ObserveEnd(r: Reading, exited: bool, normal: bool) returns (healthy: bool)
      requires Valid() && !supervisor.phase.Terminal()
      modifies flow, flow.clock, supervisor
      ensures Valid() && SameLaunch() && !supervisor.phase.Terminal()
      ensures healthy ==> flow.issued && r.valid
      ensures supervisor.verdict == old(supervisor.verdict) && supervisor.samples == old(supervisor.samples)
      ensures supervisor.started && !(exited && healthy) ==>
          supervisor.exitObserved == old(supervisor.exitObserved) && supervisor.lastMs == old(supervisor.lastMs)
      ensures supervisor.started ==>
          (supervisor.exitObserved || (exited && healthy) <==> old(supervisor.exitObserved) || (exited && healthy))
      ensures supervisor.started ==> TimeCause(r) == old(EndCause(healthy, normal, r))
    {
      hide Supervisor.Passed, GrantFlow.ValidWith, NoLaunch, NotSent, Writes;
      healthy := flow.Inspect(r);
      if !healthy || !normal { supervisor.WorkerFailed(); }
      if exited && healthy { supervisor.ObserveExit(r.mono); }
    }

    /** The worker's channel is complete, and its block decodes. */
    ghost predicate Reported()
      requires channel.Valid()
      reads this, channel, channel.settlement
    {
      channel.Complete() && Decode(channel.settlement[..], h).Some?
    }

    /** Hands the worker's record, if its channel is complete, to the supervisor, which
        judges it. Nothing is settled by a record that is missing, or on a side whose grant
        or handles are in doubt. */
    method Settle(r: Reading, exited: bool, normal: bool, closed: bool) returns (ghost healthy: bool)
      requires Valid()
      modifies this, flow, flow.clock, supervisor
      ensures Valid() && channel == old(channel) && flow.hash == old(flow.hash) && flow.target == old(flow.target)
      ensures worker == old(worker) && supervisor.launchedAt == old(supervisor.launchedAt)
          && flow.issued == old(flow.issued)
      ensures supervisor.started == old(supervisor.started) && supervisor.samples == old(supervisor.samples)
      ensures if old(supervisor.phase).Terminal() then custodyUnsettled == old(custodyUnsettled)
              else ownerHandlesClosed == (exited && healthy && closed)
                   && custodyUnsettled == (old(custodyUnsettled) && !ownerHandlesClosed)
      ensures healthy ==> r.valid && flow.issued
      ensures old(supervisor.phase).Terminal() || !supervisor.started ==>
          supervisor.phase.Terminal() == old(supervisor.phase).Terminal()
              && supervisor.verdict == old(supervisor.verdict)
      ensures !old(supervisor.phase).Terminal() && supervisor.started ==>
          && supervisor.Settled(old(EndCause(healthy, normal, r)))
          && supervisor.exitObserved == (old(supervisor.exitObserved) || (healthy && exited))
          && (if healthy && closed && Reported() then supervisor.settled == Decode(channel.settlement[..], h)
              else supervisor.verdict == Unknown)
    {
      hide Supervisor.Passed, Supervisor.Settled, GrantFlow.ValidWith, NoLaunch, NotSent, Writes, Decode, CauseAt;
      healthy := false;
      if supervisor.phase.Terminal() { return; }
      var fit := ObserveEnd(r, exited, normal);
      healthy := fit;
      Report(r, fit, exited, closed);
      ownerHandlesClosed := exited && fit && closed;
      if ownerHandlesClosed { custodyUnsettled := false; }
    }

    method Report(r: Reading, fit: bool, exited: bool, closed: bool)
      requires Valid() && !supervisor.phase.Terminal()
      modifies this`logsComplete, supervisor
      ensures Valid() && SameLaunch()
      ensures supervisor.samples == old(supervisor.samples)
      ensures !supervisor.started ==> !supervisor.phase.Terminal() && supervisor.verdict == old(supervisor.verdict)
      ensures supervisor.started ==>
          && supervisor.Settled(old(TimeCause(r)))
          && supervisor.exitObserved == (old(supervisor.exitObserved) || (fit && exited))
          && (if fit && closed && Reported() then supervisor.settled == Decode(channel.settlement[..], h)
              else supervisor.verdict == Unknown)
    {
      hide Supervisor.Passed, Supervisor.Settled, GrantFlow.ValidWith, NoLaunch, NotSent, Writes, Decode, FreshLedger,
          FreshObservation, Unresolved, Exact, CauseAt;
      var l, n := WorkersRecord(fit && closed);
      supervisor.Settle(r.mono, fit && exited, l, n);
      if supervisor.started && l.settlementUnknown { supervisor.NotKnown(old(TimeCause(r))); }
    }
  }
}
