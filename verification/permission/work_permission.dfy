/** The sole issuer and event owner: approval, issue, consumption, start, launch, and the
    pump that gives the one work permission, the one acknowledgement or the one stop. */
module WorkPermission {
  import opened WireBytes
  import opened Settlements
  import opened Channels
  import opened Frames
  import opened PermissionLog
  import opened GrantFlows
  import opened Supervisors
  import opened AdmissionControllers

  /** The controller's own approved limits; document stands for the rest of the scope. */
  datatype Scope = Scope(document: string, working: U64, commit: U64, handles: U32, approved: bool) {
    predicate Valid() { working != 0 && commit != 0 && handles != 0 && approved }
  }

  type ScopeHash = Scope -> string

  datatype FixedTarget = FixedTarget(grant: Target, scope: Scope, sid: string) {
    predicate Valid(hash: ScopeHash) {
      scope.Valid() && !grant.userApproved && grant.ValidPreApproval() && grant.evidenceScope == hash(scope)
          && sid != ""
    }
  }

  /** What the end was observed as: the reading, whether the grant stood and the clock was
      trusted, and whether the worker exited normally. */
  datatype Ending = Ending(r: Reading, healthy: bool, normal: bool)

  /** Whether the pump goes on, and if not, how it ends. */
  datatype Turn = Continue | End(normal: bool)

  /** What the worker's side of the wire may be sent, in order. */
  predicate Replies(frames: seq<Frame>, hash: Digest, origin: U64, t: Target) {
    && |frames| <= 2
    && (|frames| >= 1 ==> frames[0] == Admission(hash, origin, t.handles, t.working, t.commit))
    && (|frames| == 2 ==> frames[1] == Ack(hash) || frames[1] == Stop(hash, 2))
  }

  /** The worker's parser accepts all of it: the cap of three frames is never met. */
  lemma RepliesAccepted(frames: seq<Frame>, hash: Digest, origin: U64, t: Target, h: Hash)
    requires Replies(frames, hash, origin, t) && t.handles != 0 && t.working != 0 && t.commit != 0
    ensures !Feed(Fresh(hash, false, false), frames, h).failed
  {
    hide Accept, Admission, Ack, Stop;
    var s := Fresh(hash, false, false);
    if |frames| >= 1 {
      AdmissionAccepted(hash, false, origin, t.handles, t.working, t.commit, h);
      assert frames[..1] == [frames[0]] && [frames[0]][..0] == [];
      assert Feed(s, [], h) == s;
      assert Feed(s, frames[..1], h) == Accept(s, frames[0], h);
      if |frames| == 2 {
        AckAccepted(s.(count := 1), hash, h);
        StopAccepted(s.(count := 1), hash, h);
        assert Feed(s, frames, h) == Accept(Feed(s, frames[..1], h), frames[1], h);
      } else {
        assert frames[..1] == frames;
      }
    }
  }

  /** Which frames were sent. */
  datatype Flags = Flags(admission: bool, ack: bool, stop: bool)

  ghost predicate FramedAs(log: seq<Event>, s: Flags, hash: Digest, origin: U64, t: Target) {
    && (!s.admission ==> !s.ack && !s.stop) && !(s.ack && s.stop)
    && (s.admission <==> !NotSent(log, ADMISSION)) && (s.ack <==> !NotSent(log, ACK))
    && (s.stop <==> !NotSent(log, STOP))
    && Replies(SentFrames(log), hash, origin, t)
    && |SentFrames(log)| == (if s.admission then 1 else 0) + (if s.ack || s.stop then 1 else 0)
  }

  lemma NotSentAppend(log: seq<Event>, e: Event, kind: nat)
    ensures NotSent(log + [e], kind) <==> NotSent(log, kind) && !(e.Sent? && e.kind == kind)
  {
    assert (log + [e])[|log|] == e;
    if NotSent(log + [e], kind) {
      forall i | 0 <= i < |log| ensures !(log[i].Sent? && log[i].kind == kind) { assert (log + [e])[i] == log[i]; }
    }
  }

  /** One more entry in the log. */
  lemma NotSentNext(log: seq<Event>, e: Event)
    ensures forall kind | kind in {ADMISSION, ACK, STOP} ::
              NotSent(log + [e], kind) <==> NotSent(log, kind) && !(e.Sent? && e.kind == kind)
  {
    NotSentAppend(log, e, ADMISSION);
    NotSentAppend(log, e, ACK);
    NotSentAppend(log, e, STOP);
  }

  lemma FramedKept(log: seq<Event>, e: Event, s: Flags, hash: Digest, origin: U64, t: Target)
    requires FramedAs(log, s, hash, origin, t) && !e.Sent?
    ensures FramedAs(log + [e], s, hash, origin, t)
  {
    hide Replies, NotSent;
    SentFramesAppend(log, e);
    assert SentFrames(log) + [] == SentFrames(log);
    NotSentNext(log, e);
  }

  lemma FramedFirst(log: seq<Event>, f: Frame, hash: Digest, origin: U64, t: Target)
    requires FramedAs(log, Flags(false, false, false), hash, origin, t)
    requires f == Admission(hash, origin, t.handles, t.working, t.commit)
    ensures FramedAs(log + [Sent(ADMISSION, f)], Flags(true, false, false), hash, origin, t)
  {
    hide NotSent, Admission;
    SentFramesAppend(log, Sent(ADMISSION, f));
    NotSentNext(log, Sent(ADMISSION, f));
  }

  lemma FramedLast(log: seq<Event>, kind: nat, f: Frame, hash: Digest, origin: U64, t: Target)
    requires FramedAs(log, Flags(true, false, false), hash, origin, t) && kind in {ACK, STOP}
    requires f == if kind == ACK then Ack(hash) else Stop(hash, 2)
    ensures FramedAs(log + [Sent(kind, f)], Flags(true, kind == ACK, kind == STOP), hash, origin, t)
  {
    hide NotSent, Admission, Ack, Stop;
    SentFramesAppend(log, Sent(kind, f));
    NotSentNext(log, Sent(kind, f));
  }

  class Controller {
    const target: FixedTarget
    const scopeHash: ScopeHash
    const binding: Binding
    const world: World
    const flow: GrantFlow
    const core: Core
    const clock: ClockValidator
    var attempted: bool
    var finished: bool
    var workerStopped: bool
    var parts: nat
    var runtimeDenied: bool
    var approvalConfirmed: bool
    var admissionSent: bool
    var ackSent: bool
    var stopAttempted: bool
    var ioClosed: bool
    var handoffRequired: bool
    var verdict: Verdict

    constructor (target: FixedTarget, scopeHash: ScopeHash, binding: Binding, world: World, h: Hash)
      requires world.log == [] && world.terms == Terms(binding, target.grant, target.sid)
      ensures this.target == target && this.world == world && Valid() && Orderly() && Ready() && Judged()
      ensures fresh(Repr() - {world})
    {
      this.target, this.scopeHash, this.binding, this.world := target, scopeHash, binding, world;
      var grant := new GrantFlow(world, binding);
      flow := grant;
      core := new Core(world, grant, h);
      clock := new ClockValidator();
      attempted, finished, workerStopped, parts := false, false, false, 0;
      runtimeDenied, approvalConfirmed, admissionSent, ackSent, stopAttempted := false, false, false, false, false;
      ioClosed, handoffRequired, verdict := false, false, NotRun;
    }

    ghost function Repr(): set<object>
      reads this, core
    {
      {this, clock, world, flow, flow.clock} + core.Repr()
    }

    /** The parts agree with the log, and they are about the one fixed target. */
    ghost predicate Based(log: seq<Event>)
      reads core, flow, core.flow, core.flow.clock, core.supervisor, core.channel
    {
      && core.world == world && core.flow == flow && clock != flow.clock && core.ValidWith(log)
      && world.terms == Terms(binding, target.grant, target.sid) && flow.binding == binding
      && (flow.issued ==> flow.target == Some(target.grant.(userApproved := true)) && target.grant.ValidPreApproval())
    }

    /** The controller's validator is where its own readings leave it. */
    ghost predicate Timed(log: seq<Event>)
      reads clock
    {
      clock.Valid() && clock.Now() == ClockAfter(log)
    }

    ghost function Sends(): Flags
      reads `admissionSent, `ackSent, `stopAttempted
    {
      Flags(admissionSent, ackSent, stopAttempted)
    }

    /** The flags say what was sent. */
    ghost predicate Framed(log: seq<Event>)
      reads `admissionSent, `ackSent, `stopAttempted, core, flow, core.supervisor
    {
      && (admissionSent ==> flow.issued && core.supervisor.started)
      && FramedAs(log, Sends(), flow.hash, core.supervisor.launchedAt, target.grant)
    }

    ghost predicate ValidWith(log: seq<Event>)
      reads `admissionSent, `ackSent, `stopAttempted, clock, core, flow, core.flow, core.flow.clock, core.supervisor,
          core.channel
    {
      Based(log) && Timed(log) && Framed(log)
    }

    ghost predicate Valid()
      reads Repr()
    {
      ValidWith(world.log)
    }

    /** Between turns: a worker that said hello was given its permission, or all is over. */
    ghost predicate Orderly()
      reads this, core, core.channel
    {
      finished || (!stopAttempted && (core.channel.count > 0 ==> admissionSent))
    }

    /** What a PASS stands for. */
    ghost predicate Judged()
      reads this, core, core.supervisor
    {
      finished && verdict == Pass ==> core.supervisor.Passed() && !core.custodyUnsettled && ioClosed && !handoffRequired
    }

    /** Before it was begun. */
    ghost predicate Ready()
      reads this, core, core.channel
    {
      !attempted ==> !finished && core.channel.count == 0 && !admissionSent
    }

    // ----- the small steps

    /** A reading the controller's own validator does not accept is passed on as invalid. */
    method ReadTime() returns (threw: bool, r: Reading)
      requires Valid()
      modifies clock, world
      ensures Valid() && old(world.log) <= world.log
      ensures threw ==> world.log == old(world.log)
      ensures !threw && r.valid ==> !clock.failed && world.log == old(world.log) + [Event.Read(r, true)]
    {
      hide Based, FramedAs, Legal;
      ClockApart();
      ghost var log := world.log;
      threw, r := world.ReadClock(true);
      if threw { return; }
      ghost var e := Event.Read(r, true);
      ClockAppend(log, e);
      BasedKept(log, e);
      FramedKept(log, e, Sends(), flow.hash, core.supervisor.launchedAt, target.grant);
      var ok := clock.Accept(r);
      if !ok { r := r.(valid := false); }
    }

    lemma ClockApart()
      requires Valid()
      ensures clock != flow.clock && core.flow == flow
    {
    }

    lemma BasedKept(log: seq<Event>, e: Event)
      requires Based(log) && (Legal(log, e, world.terms) || e.Read?) && !e.Wrote? && !e.Launched? && !e.Stepped?
      ensures Based(log + [e])
    {
      hide Core.ValidWith;
      core.Untouched(log, e);
    }

    /** Logging anything but a write, a launch, a frame or an own reading. */
    lemma Untouched(log: seq<Event>, e: Event)
      requires ValidWith(log) && Legal(log, e, world.terms)
      requires !e.Wrote? && !e.Launched? && !e.Stepped? && !e.Sent? && !e.Read?
      ensures ValidWith(log + [e])
    {
      hide Based, Legal, FramedAs;
      BasedKept(log, e);
      FramedKept(log, e, Sends(), flow.hash, core.supervisor.launchedAt, target.grant);
      ClockAppend(log, e);
    }

    predicate ControllerFits(o: Observed) {
      var s := o.controller;
      && o.healthy && s.working != 0 && s.commit != 0 && s.handles != 0
      && s.working <= target.scope.working && s.commit <= target.scope.commit && s.handles <= target.scope.handles
    }

    /** Live handles only count while the worker runs; memory peaks count to the end. */
    predicate WorkerFits(o: Observed) {
      var s := o.worker;
      && o.healthy && s.working != 0 && s.commit != 0
      && (!o.exited ==> s.handles != 0 && s.handles <= target.grant.handles)
      && s.working <= target.grant.working && s.commit <= target.grant.commit
    }

    /** The target inspected and the controller within its own limits. */
    method Inspected() returns (ok: bool)
    {
      var threw, yes := world.Ask();
      if threw || !yes { return false; }
      var o;
      threw, o := world.Observe();
      ok := !threw && ControllerFits(o);
    }

    // ----- begin

    /** Once: approval, issue, consumption, start, and the first turn of the pump. */
    method Begin() returns (ok: bool)
      requires Valid() && Orderly() && Judged() && Ready()
      modifies Repr()
      ensures Valid() && Orderly() && Judged() && Ready() && fresh(Repr() - old(Repr()))
      ensures old(attempted) ==> !ok && world.log == old(world.log)
      ensures attempted
    {
      hide ValidWith;
      NothingSentYet();
      if attempted { return false; }
      attempted := true;
      var allowed: bool := *;
      if !allowed {
        runtimeDenied, verdict, finished := true, Inconclusive, true;
        return false;
      }
      ok := Prepare();
      if !ok {
        ghost var end := Finish(false);
        return;
      }
      ok := Pump();
    }

    lemma NothingSentYet()
      requires Valid()
      ensures !admissionSent ==> !ackSent && !stopAttempted
    {
    }

    method Prepare() returns (ok: bool)
      requires Valid() && Waiting()
      modifies Repr()
      ensures Valid() && Waiting() && fresh(Repr() - old(Repr()))
    {
      hide GrantFlow.ValidWith, Core.ValidWith, ValidWith, MakePrompt, FixedTarget.Valid, Confirmed;
      if !target.Valid(scopeHash) { return false; }
      var prompt := MakePrompt(binding, target.grant, target.sid);
      if prompt.None? { return false; }
      ok := Inspected();
      if !ok { return; }
      var threw, agreed, response := AskHuman();
      if threw || !agreed || !Confirmed(binding, prompt.value, response, target.grant, target.sid) { return false; }
      ok := Inspected();
      if !ok { return; }
      ok := Issue(prompt.value, response);
      if ok { ok := Admit(); }
      if ok { ok := StartWorker(); }
    }

    method AskHuman() returns (threw: bool, agreed: bool, response: Response)
      requires Valid()
      modifies world
      ensures Valid() && (!threw ==> Responded(response) in world.log)
    {
      hide ValidWith;
      ghost var log := world.log;
      threw, agreed, response := world.Approve();
      if !threw { Untouched(log, Responded(response)); }
    }

    /** The next frame of the worker, if there is one. */
    method Listen() returns (threw: bool, ok: bool, available: bool, f: Frame)
      requires Valid()
      modifies world
      ensures Valid() && (!threw && available ==> Received(f) in world.log)
    {
      hide ValidWith;
      ghost var log := world.log;
      threw, ok, available, f := world.Next();
      if !threw && available { Untouched(log, Received(f)); }
    }

    /** Nothing was sent and nothing came from the worker yet. */
    ghost predicate Waiting()
      reads this, core, core.channel
    {
      attempted && !finished && !admissionSent && !ackSent && !stopAttempted && core.channel.count == 0
    }

    /** What the core did to the log and to itself left the frames as they were. */
    twostate lemma CoreMoved()
      requires old(Valid()) && unchanged(this) && unchanged(clock) && core.Valid()
      requires Silent(old(world.log), world.log)
      requires old(flow.issued) ==> flow.issued && flow.hash == old(flow.hash) && flow.target == old(flow.target)
      requires !old(flow.issued) && flow.issued ==>
          flow.target == Some(target.grant.(userApproved := true))
          && target.grant.ValidPreApproval()
      requires admissionSent ==>
          core.supervisor.started
          && core.supervisor.launchedAt == old(core.supervisor.launchedAt)
      ensures Valid()
    {
      hide Core.ValidWith, NotSent, Silent, Target.ValidPreApproval;
      SilentKeeps(old(world.log), world.log);
    }

    method Issue(prompt: Prompt, response: Response) returns (ok: bool)
      requires Valid() && Waiting() && Responded(response) in world.log
      modifies Repr()
      ensures Valid() && Waiting() && fresh(Repr() - old(Repr()))
    {
      approvalConfirmed := true;
      var threw, r := ReadTime();
      if threw { return false; }
      ok := IssueGrant(prompt, response, r);
    }

    method IssueGrant(prompt: Prompt, response: Response, r: Reading) returns (ok: bool)
      requires Valid() && Waiting() && Responded(response) in world.log
      modifies flow, flow.clock, world
      ensures Valid() && Waiting()
    {
      hide Core.ValidWith, NotSent, SentFrames, Replies, Silent, Target.ValidPreApproval;
      ok := core.IssueGrant(prompt, response, target.grant, target.sid, r);
      CoreMoved();
    }

    method Admit() returns (ok: bool)
      requires Valid() && Waiting()
      modifies Repr()
      ensures Valid() && Waiting() && fresh(Repr() - old(Repr()))
    {
      var threw, r := ReadTime();
      if threw { return false; }
      ok := AdmitAt(r);
    }

    method AdmitAt(r: Reading) returns (ok: bool)
      requires Valid() && Waiting()
      modifies core.Repr()
      ensures Valid() && Waiting() && fresh(Repr() - old(Repr()))
    {
      hide Core.ValidWith, NotSent, SentFrames, Replies, Silent, Target.ValidPreApproval;
      ok := core.Admit(r, target.grant.batch);
      CoreMoved();
    }

    method StartWorker() returns (ok: bool)
      requires Valid() && Waiting()
      modifies Repr()
      ensures Valid() && Waiting() && fresh(Repr() - old(Repr()))
    {
      var threw, r := ReadTime();
      if threw { return false; }
      ok := StartAt(r);
    }

    method StartAt(r: Reading) returns (ok: bool)
      requires Valid() && Waiting()
      modifies core.Repr()
      ensures Valid() && Waiting() && fresh(Repr() - old(Repr()))
    {
      hide Core.ValidWith, NotSent, SentFrames, Replies, Silent, Target.ValidPreApproval;
      ok := core.Start(r);
      CoreMoved();
    }

    // ----- the pump

    /** One turn: at most one frame, and the deadline in any case. */
    method Pump() returns (ok: bool)
      requires Valid() && Orderly() && Judged() && Ready()
      modifies Repr()
      ensures Valid() && Orderly() && Judged() && Ready() && fresh(Repr() - old(Repr()))
      ensures attempted == old(attempted)
      ensures old(finished) ==> !ok && world.log == old(world.log)
    {
      hide ValidWith;
      if !attempted || finished { return false; }
      var turn := TakeTurn();
      if turn.Continue? { return true; }
      ghost var end := Finish(turn.normal);
      ok := false;
    }

    method TakeTurn() returns (turn: Turn)
      requires Valid() && Orderly() && !finished
      modifies Repr()
      ensures Valid() && fresh(Repr() - old(Repr())) && !finished && !stopAttempted && attempted == old(attempted)
      ensures turn.Continue? ==> Orderly()
    {
      hide ValidWith;
      var alive, o := Monitor();
      if !alive { return End(false); }
      if o.exited && parts == 24 { return End(o.normalExit); }
      if ackSent { return Continue; }
      var threw, ok, available, f := Listen();
      if threw || !ok { return End(false); }
      if available {
        ok, o := Take(f);
        if !ok { return End(false); }
      }
      if o.exited && (!available || parts == 24) { return End(o.normalExit); }
      turn := Continue;
    }

    /** Both processes within their limits and the deadline not reached. Only a worker
        that stopped itself is still heard out, within the same deadline. */
    method Monitor() returns (alive: bool, o: Observed)
      requires Valid() && Orderly() && !finished
      modifies Repr()
      ensures Valid() && Orderly() && fresh(Repr() - old(Repr())) && Unmoved()
    {
      hide ValidWith;
      alive := false;
      var threw, r := ReadTime();
      if threw { o := *; return; }
      threw, o := world.Observe();
      if threw || !ControllerFits(o) || !WorkerFits(o) { return; }
      var healthy;
      alive, healthy := PollAt(r, o.healthy);
      if !alive {
        var launch := core.supervisor.launchedAt;
        alive := workerStopped && healthy && core.supervisor.phase == StopRequested
                 && launch <= r.mono && r.mono - launch < target.grant.maxExecution;
      }
    }

    /** The flags of the controller and what was sent are as before. */
    twostate predicate Unmoved()
      reads this, core, core.channel
    {
      && attempted == old(attempted) && finished == old(finished) && parts == old(parts)
      && admissionSent == old(admissionSent) && ackSent == old(ackSent) && stopAttempted == old(stopAttempted)
      && core.channel == old(core.channel) && core.channel.count == old(core.channel.count)
    }

    method PollAt(r: Reading, observer: bool) returns (ok: bool, healthy: bool)
      requires Valid()
      modifies core, flow, flow.clock, core.supervisor
      ensures Valid() && core.channel == old(core.channel) && world.log == old(world.log)
          && clock.failed == old(clock.failed)
      ensures flow.hash == old(flow.hash) && core.worker == old(core.worker)
      ensures core.supervisor.launchedAt == old(core.supervisor.launchedAt)
      ensures ok ==> healthy && r.valid && core.supervisor.phase == old(core.supervisor.phase)
      ensures ok && core.supervisor.phase == Running ==>
        core.supervisor.launchedAt <= r.mono && r.mono - core.supervisor.launchedAt < DURATION && core.Valid()
    {
      hide NotSent, SentFrames, Replies, Silent;
      ok, healthy := core.Poll(r, observer);
      SilentNothing(world.log);
      CoreMoved();
    }

    lemma SilentNothing(log: seq<Event>)
      ensures Silent(log, log)
    {
    }

    /** One frame from the worker, and the answer that is due to it. */
    method Take(f: Frame) returns (ok: bool, o: Observed)
      requires Valid() && Orderly() && !finished && !ackSent && Received(f) in world.log
      modifies Repr()
      ensures Valid() && fresh(Repr() - old(Repr())) && !finished && !stopAttempted && attempted == old(attempted)
      ensures ok ==> Orderly()
    {
      hide ValidWith, Value, HelloOf;
      ok := false;
      var threw, r;
      threw, o := world.Observe();
      if threw { return; }
      threw, r := ReadTime();
      if threw { return; }
      // The time of receipt, not the worker's own.
      o := o.(worker := o.worker.(observedAt := r.mono));
      if !ControllerFits(o) || !WorkerFits(o) { return; }
      ok := ReceiveAt(f, o.worker, r);
      if !ok { return; }
      ok := Answer(f);
    }

    /** A hello earns the permission, the last settlement part the acknowledgement. */
    method Answer(f: Frame) returns (ok: bool)
      requires Valid() && !finished && !stopAttempted && !ackSent && core.channel.count > 0
      requires if Field(f, 6, 2) == HELLO
               then HelloAccepted(f) in world.log && core.OwnHello(f) && core.supervisor.phase == Running
               else Orderly()
      modifies Repr()
      ensures Valid() && fresh(Repr() - old(Repr())) && !finished && !stopAttempted && attempted == old(attempted)
      ensures ok ==> Orderly()
    {
      hide ValidWith, Value, HelloOf;
      ok := true;
      var kind := Get(f, 6, 2);
      if kind == HELLO {
        ok := GiveAdmission(f);
      } else if kind == SETTLEMENT {
        parts := parts + 1;
        if parts == 24 {
          AckDue();
          ok := GiveAck();
        }
      } else if kind == STOP {
        workerStopped := true;
      }
    }

    /** Between turns, a worker that was heard has its permission. */
    lemma AckDue()
      requires Valid() && Orderly() && !finished && core.channel.count > 0
      ensures admissionSent
    {
    }

    method ReceiveAt(f: Frame, independent: ResourceSample, r: Reading) returns (ok: bool)
      requires Valid() && Orderly() && !finished && Received(f) in world.log
      modifies core, flow, flow.clock, core.supervisor, core.channel, core.channel.settlement, world
      ensures Valid() && fresh(Repr() - old(Repr())) && core.channel == old(core.channel)
      ensures ok && Field(f, 6, 2) == HELLO ==>
          HelloAccepted(f) in world.log && core.OwnHello(f)
          && core.supervisor.phase == Running
      ensures ok && Field(f, 6, 2) != HELLO ==> Orderly()
      ensures ok ==> core.channel.count > 0
    {
      hide Core.ValidWith, NotSent, SentFrames, Replies, Value;
      ok := core.Receive(f, independent, r);
      CoreMoved();
    }

    /** The one work permission: after the hello, after one more look at the target and
        at both processes, and with the clock still before the deadline. */
    method GiveAdmission(hello: Frame) returns (ok: bool)
      requires Valid() && !finished && !stopAttempted && !ackSent
      requires core.supervisor.phase == Running && HelloAccepted(hello) in world.log && core.OwnHello(hello)
      modifies Repr()
      ensures Valid() && fresh(Repr() - old(Repr())) && !finished && !stopAttempted && !ackSent
          && attempted == old(attempted)
      ensures ok ==> admissionSent
    {
      hide ValidWith, Core.ValidWith, InTime, LastRead, HelloOf;
      if admissionSent { return false; }
      var threw, yes := world.Ask();
      if threw || !yes { return false; }
      var o;
      threw, o := world.Observe();
      if threw || o.exited || !ControllerFits(o) || !WorkerFits(o) { return false; }
      ghost var log := world.log;
      var r;
      threw, r := ReadTime();
      if threw { return false; }
      var healthy;
      ok, healthy := PollAt(r, true);
      if !ok { return; }
      ReadInTime(log, r, core.supervisor.launchedAt);
      ok := SendAdmission(hello);
    }

    lemma ReadInTime(log: seq<Event>, r: Reading, t: U64)
      requires ValidWith(log + [Event.Read(r, true)]) && !clock.failed && t <= r.mono && r.mono - t < DURATION
      ensures InTime(log + [Event.Read(r, true)], t)
    {
      hide Based, Framed;
      LastReadAppend(log, Event.Read(r, true));
    }

    method SendAdmission(ghost hello: Frame) returns (ok: bool)
      requires Valid() && !admissionSent && core.supervisor.phase == Running
      requires HelloAccepted(hello) in world.log && core.OwnHello(hello)
          && InTime(world.log, core.supervisor.launchedAt)
      modifies this`admissionSent, world
      ensures Valid() && admissionSent
    {
      hide Value, InTime, Based, FramedAs, Legal, Admission, HelloOf;
      var g := target.grant;
      var f := BuildAdmission(flow.hash, core.supervisor.launchedAt, g.handles, g.working, g.commit);
      ghost var log := world.log;
      AdmissionIsLegal(hello, f);
      BasedKept(log, Sent(ADMISSION, f));
      ClockAppend(log, Sent(ADMISSION, f));
      FramedFirst(log, f, flow.hash, core.supervisor.launchedAt, g);
      admissionSent := true;
      var threw;
      threw, ok := world.Send(ADMISSION, f);
      ok := ok && !threw;
    }

    lemma AdmissionIsLegal(hello: Frame, f: Frame)
      requires Valid() && !admissionSent && core.supervisor.phase == Running
      requires HelloAccepted(hello) in world.log && core.OwnHello(hello)
          && InTime(world.log, core.supervisor.launchedAt)
      requires f == Admission(flow.hash, core.supervisor.launchedAt, target.grant.handles, target.grant.working,
          target.grant.commit)
      ensures Legal(world.log, Sent(ADMISSION, f), world.terms) && flow.issued && core.supervisor.started && !ackSent
          && !stopAttempted
    {
      hide InTime, Admission, HelloOf, GrantFlow.ValidWith, Supervisor.Passed, Replies;
      ghost var l := Launched(flow.hash, core.supervisor.launchedAt, core.worker);
      assert l in world.log && l.worker.Running();
    }

    /** The acknowledgement of a complete settlement. */
    method GiveAck() returns (ok: bool)
      requires Valid() && admissionSent && !ackSent && !stopAttempted
      modifies this`ackSent, world
      ensures Valid() && ackSent
    {
      hide Value, Based, FramedAs, Legal, Ack;
      var f := BuildAck(flow.hash);
      LastIsLegal(ACK, f);
      ackSent := true;
      var threw;
      threw, ok := world.Send(ACK, f);
      ok := ok && !threw;
    }

    /** The one stop. */
    method GiveStop() returns (threw: bool)
      requires Valid() && admissionSent && !ackSent && !stopAttempted
      modifies this`stopAttempted, world
      ensures Valid() && stopAttempted
    {
      hide Value, Based, FramedAs, Legal, Stop;
      var f := BuildStop(flow.hash, 2);
      LastIsLegal(STOP, f);
      stopAttempted := true;
      var ok;
      threw, ok := world.Send(STOP, f);
    }

    lemma LastIsLegal(kind: nat, f: Frame)
      requires Valid() && admissionSent && !ackSent && !stopAttempted && kind in {ACK, STOP}
      requires f == if kind == ACK then Ack(flow.hash) else Stop(flow.hash, 2)
      ensures var after := world.log + [Sent(kind, f)];
              && Based(after) && ClockAfter(after) == ClockAfter(world.log)
              && FramedAs(after, Flags(true, kind == ACK, kind == STOP), flow.hash, core.supervisor.launchedAt,
                  target.grant)
    {
      hide Based, Ack, Stop, Replies, NotSent;
      ghost var log := world.log;
      FramedLast(log, kind, f, flow.hash, core.supervisor.launchedAt, target.grant);
      BasedKept(log, Sent(kind, f));
      ClockAppend(log, Sent(kind, f));
    }

    // ----- the end

    /** A launched worker that is not settled yet. */
    ghost predicate Unsettled()
      reads core, core.supervisor
    {
      core.custodyUnsettled && core.supervisor.started && !core.supervisor.phase.Terminal()
    }

    /** What the supervisor was asked to judge, with this first failure: the worker's own
        record, or nothing known. */
    ghost predicate JudgedBy(cause: Reason)
      requires core.channel.Valid()
      reads core, core.supervisor, core.channel, core.channel.settlement
    {
      && core.supervisor.Settled(cause) && core.supervisor.exitObserved
      && (if core.Reported() then core.supervisor.settled == Decode(core.channel.settlement[..], core.h)
          else core.supervisor.verdict == Unknown)
    }

    /** What follows from the supervisor's judgement, if nothing is handed off. */
    ghost function Concluded(): Verdict
      reads core, core.supervisor
    {
      if core.supervisor.phase == Blocked then if core.consumption.unknown then Unknown else Inconclusive
      else if core.supervisor.verdict == NotRun then Inconclusive
      else core.supervisor.verdict
    }

    /** The end: at most one stop, the settlement of what was launched, and the verdict. A
        PASS is given for a settled, exact run whose handles and pipes are closed. */
    method Finish(normal: bool) returns (ghost end: Ending)
      requires Valid() && !finished && !stopAttempted
      modifies Repr()
      ensures Valid() && fresh(Repr() - old(Repr())) && finished && attempted == old(attempted)
      ensures Judged()
      ensures verdict != NotRun && verdict == if handoffRequired then Unknown else Concluded()
      ensures !handoffRequired ==> !core.custodyUnsettled && ioClosed
      ensures !handoffRequired && old(Unsettled()) ==>
          end.healthy && core.channel.Valid() && JudgedBy(old(core.EndCause(true, normal && end.normal, end.r)))
    {
      hide ValidWith, JudgedBy, Core.EndCause;
      var threw;
      threw, end := FinishGuarded(normal);
      if threw { handoffRequired := true; }
      var given := core.supervisor.verdict;
      PassStandsFor();
      if core.supervisor.phase == Blocked {
        given := if core.consumption.unknown then Unknown else Inconclusive;
      }
      verdict := if handoffRequired then Unknown else given;
      if verdict == NotRun { verdict := Inconclusive; }
      finished := true;
    }

    lemma PassStandsFor()
      requires Valid()
      ensures core.supervisor.verdict == Pass ==> core.supervisor.Passed()
    {
    }

    method FinishGuarded(normal: bool) returns (threw: bool, ghost end: Ending)
      requires Valid() && !finished && !stopAttempted
      modifies Repr()
      ensures Valid() && fresh(Repr() - old(Repr())) && attempted == old(attempted) && !finished
      ensures !threw ==> handoffRequired == (core.custodyUnsettled || !ioClosed)
      ensures !threw && !core.custodyUnsettled && old(Unsettled()) ==>
          end.healthy && core.channel.Valid() && JudgedBy(old(core.EndCause(true, normal && end.normal, end.r)))
    {
      hide ValidWith, JudgedBy, Core.EndCause;
      threw, end := false, *;
      if core.custodyUnsettled {
        threw, end := SettleAll(normal);
        if threw { return; }
      }
      var yes;
      threw, yes := world.Ask();
      if threw { return; }
      ioClosed := yes;
      handoffRequired := core.custodyUnsettled || !ioClosed;
    }

    method SettleAll(normal: bool) returns (threw: bool, ghost end: Ending)
      requires Valid() && !finished && !stopAttempted
      modifies Repr()
      ensures Valid() && fresh(Repr() - old(Repr())) && attempted == old(attempted) && !finished
      ensures !threw && !core.custodyUnsettled && old(Unsettled()) ==>
          end.healthy && core.channel.Valid() && JudgedBy(old(core.EndCause(true, normal && end.normal, end.r)))
    {
      hide ValidWith, JudgedBy;
      end := *;
      if !normal { StopCore(); }
      if !normal && admissionSent && !ackSent && !stopAttempted {
        threw := GiveStop();
        if threw { return; }
      }
      var r, o, closed;
      threw, r := ReadTime();
      if threw { return; }
      threw, o := world.Observe();
      if threw { return; }
      closed := o.healthy && o.exited;
      if closed {
        var yes;
        threw, yes := world.Ask();
        if threw { return; }
        closed := yes;
      }
      ghost var healthy := SettleAt(r, o.healthy && o.exited, normal && o.normalExit, closed);
      end := Ending(r, healthy, o.normalExit);
    }

    method StopCore()
      requires Valid()
      modifies core.supervisor`phase, core.supervisor`firstFailure
      ensures Valid() && core.supervisor.phase.Terminal() == old(core.supervisor.phase).Terminal()
      ensures !core.supervisor.phase.Terminal() ==>
          core.supervisor.firstFailure == if old(core.supervisor.firstFailure) == NoReason then OnWorker
                                          else old(core.supervisor.firstFailure)
    {
      hide NotSent, SentFrames, Replies, Silent;
      core.Stop();
      SilentNothing(world.log);
      CoreMoved();
    }

    method SettleAt(r: Reading, exited: bool, normal: bool, closed: bool) returns (ghost healthy: bool)
      requires Valid()
      modifies core, flow, flow.clock, core.supervisor
      ensures Valid() && core.channel == old(core.channel)
      ensures !core.custodyUnsettled && old(Unsettled()) ==>
          healthy && exited && closed && core.channel.Valid() && JudgedBy(old(core.EndCause(true, normal, r)))
    {
      hide NotSent, SentFrames, Replies, Silent, Supervisor.Settled, CauseAt, Decode;
      healthy := core.Settle(r, exited, normal, closed);
      SilentNothing(world.log);
      CoreMoved();
    }
  }
}
