/** What holds of every run of the controller: of the log any run leaves behind, and of the
    frames the worker's side was sent. */
module PermissionRuns {
  import opened WireBytes
  import opened Settlements
  import opened Channels
  import opened Frames
  import opened PermissionLog
  import opened GrantFlows
  import opened Supervisors
  import opened WorkPermission

  /** What led to a work permission: the places in the log. */
  datatype Path = Path(assented: nat, issued: nat, requested: nat, burned: nat, consumed: nat, started: nat,
                       launched: nat, received: nat, hello: nat, read: nat)

  /** The steps of a launch, in order. */
  const LAUNCH := [CreateStep, TokenStep, ImageStep, DependencyStep, HandlesStep, ResumeStep, HelloStep, RecheckStep]

  lemma Find(log: seq<Event>, n: nat, e: Event) returns (i: nat)
    requires n <= |log| && e in log[..n]
    ensures i < n && log[i] == e
  {
    i :| 0 <= i < n && log[..n][i] == e;
  }

  /** Every write but the receipt was preceded by what it needs. */
  lemma WriteBefore(log: seq<Event>, k: nat, t: Terms) returns (j: nat)
    requires Lawful(log, t) && k < |log| && log[k].Wrote? && log[k].write != NewReceipt
    ensures j < k && log[j] == Before(log[k].write, log[k].hash)
  {
    hide Assented;
    assert Legal(log[..k], log[k], t);
    j := Find(log, k, Before(log[k].write, log[k].hash));
  }

  /** The receipt follows a response of the human that agrees to the target's own hash. */
  lemma AssentBefore(log: seq<Event>, k: nat, t: Terms) returns (j: nat)
    requires Lawful(log, t) && k < |log| && log[k].Wrote? && log[k].write == NewReceipt
    ensures j < k && log[j].Responded? && Agreed(log[j].response, log[k].hash)
    ensures TargetHash(t.binding, t.target, t.sid) == Some(log[k].hash)
  {
    assert Legal(log[..k], log[k], t);
    assert Assented(log[..k], log[k].hash, t);
    var e :| e in log[..k] && e.Responded? && Agreed(e.response, log[k].hash);
    j := Find(log, k, e);
  }

  lemma LaunchBefore(log: seq<Event>, k: nat, t: Terms) returns (j: nat)
    requires Lawful(log, t) && k < |log| && log[k].Launched?
    ensures j < k && log[j] == Wrote(MarkStart, log[k].hash, Done)
  {
    assert Legal(log[..k], log[k], t);
    j := Find(log, k, Wrote(MarkStart, log[k].hash, Done));
  }

  /** A step of the launch stands right behind all steps before it, each of which
      succeeded for the same process; the first stands behind the successful start mark. */
  lemma {:induction false} StepsBefore(log: seq<Event>, k: nat, n: nat, pid: U32, t: Terms)
    requires Lawful(log, t) && k < |log| && n < 8 && log[k] == Stepped(LAUNCH[n], pid, true)
    ensures n <= k && forall d | 0 <= d <= n :: log[k - n + d] == Stepped(LAUNCH[d], pid, true)
    ensures exists h: Digest :: Wrote(MarkStart, h, Done) in log[..k - n]
  {
    hide Lawful;
    StepBack(log, k, t);
    if n > 0 {
      assert Previous(LAUNCH[n]) == LAUNCH[n - 1];
      StepsBefore(log, k - 1, n - 1, pid, t);
    }
  }

  lemma StepBack(log: seq<Event>, k: nat, t: Terms)
    requires Lawful(log, t) && k < |log| && log[k].Stepped?
    ensures if log[k].step == CreateStep then exists h: Digest :: Wrote(MarkStart, h, Done) in log[..k]
            else 0 < k && log[k - 1] == Stepped(Previous(log[k].step), log[k].pid, true)
  {
    hide Previous;
    assert Legal(log[..k], log[k], t);
  }

  /** A worker that runs went through the whole launch: the eight entries before it in the
      log are the eight steps, in their order, for this one process, behind the mark. */
  lemma LaunchInOrder(log: seq<Event>, k: nat, t: Terms) returns (started: nat)
    requires Lawful(log, t) && k < |log| && log[k].Launched? && log[k].worker.Running()
    ensures 8 <= k && forall d | 0 <= d < 8 :: log[k - 8 + d] == Stepped(LAUNCH[d], log[k].worker.pid, true)
    ensures started < k - 8 && log[started] == Wrote(MarkStart, log[k].hash, Done)
  {
    hide Lawful;
    LastStep(log, k, t);
    StepsBefore(log, k - 1, 7, log[k].worker.pid, t);
    var h: Digest :| Wrote(MarkStart, h, Done) in log[..k - 8];
    started := Find(log, k - 8, Wrote(MarkStart, h, Done));
    var other := LaunchBefore(log, k, t);
    if other < started { AtMostOnce(log, other, started, t); }
    if started < other { AtMostOnce(log, started, other, t); }
  }

  lemma LastStep(log: seq<Event>, k: nat, t: Terms)
    requires Lawful(log, t) && k < |log| && log[k].Launched? && log[k].worker.Running()
    ensures 0 < k && log[k - 1] == Stepped(LAUNCH[7], log[k].worker.pid, true)
  {
    assert Legal(log[..k], log[k], t);
  }

  /** A hello is accepted after the launch of the running worker it belongs to. */
  lemma HelloBefore(log: seq<Event>, k: nat, t: Terms) returns (launched: nat, received: nat)
    requires Lawful(log, t) && k < |log| && log[k].HelloAccepted?
    ensures launched < k && log[launched].Launched? && log[launched].worker.Running()
    ensures HelloOf(log[k].frame, log[launched], t)
    ensures received < k && log[received] == Received(log[k].frame)
  {
    hide HelloFits, Value;
    assert Legal(log[..k], log[k], t);
    var l :| l in log[..k] && l.Launched? && l.worker.Running() && HelloOf(log[k].frame, l, t);
    launched := Find(log, k, l);
    received := Find(log, k, Received(log[k].frame));
  }

  /** A work permission follows a hello, with the clock trusted and in time. */
  lemma PermissionBefore(log: seq<Event>, i: nat, t: Terms) returns (launched: nat, hello: nat)
    requires Lawful(log, t) && i < |log| && log[i].Sent? && log[i].kind == ADMISSION
    ensures launched < i && hello < i && log[launched].Launched? && log[launched].worker.Running()
    ensures log[hello].HelloAccepted? && InTime(log[..i], log[launched].at)
    ensures log[i].frame == Admission(log[launched].hash, log[launched].at, t.target.handles, t.target.working,
        t.target.commit)
  {
    hide InTime, Admission, HelloOf;
    assert Legal(log[..i], log[i], t);
    var l, f :| l in log[..i] && HelloAccepted(f) in log[..i] && l.Launched? && l.worker.Running() && HelloOf(f, l, t)
      && InTime(log[..i], l.at)
      && log[i].frame == Admission(l.hash, l.at, t.target.handles, t.target.working, t.target.commit);
    launched := Find(log, i, l);
    hello := Find(log, i, HelloAccepted(f));
  }

  /** The consumption, back from the start mark to the human's response. */
  ghost predicate Consumed(log: seq<Event>, p: Path, h: Digest, t: Terms) {
    && p.assented < p.issued < p.requested < p.burned < p.consumed < p.started < |log|
    && TargetHash(t.binding, t.target, t.sid) == Some(h)
    && log[p.assented].Responded? && Agreed(log[p.assented].response, h)
    && log[p.issued] == Wrote(NewReceipt, h, Done) && log[p.requested] == Wrote(NewRequest, h, Done)
    && log[p.burned] == Wrote(BurnIssued, h, Done) && log[p.consumed] == Wrote(MarkConsumed, h, Done)
    && log[p.started] == Wrote(MarkStart, h, Done)
  }

  lemma StartConsumed(log: seq<Event>, started: nat, t: Terms) returns (p: Path)
    requires Lawful(log, t) && started < |log| && log[started].Wrote? && log[started].write == MarkStart
    requires log[started].result == Done
    ensures Consumed(log, p, log[started].hash, t) && p.started == started
  {
    hide Lawful, Agreed, TargetHash;
    var consumed := WriteBefore(log, started, t);
    var burned := WriteBefore(log, consumed, t);
    var requested := WriteBefore(log, burned, t);
    var issued := WriteBefore(log, requested, t);
    var assented := AssentBefore(log, issued, t);
    p := Path(assented, issued, requested, burned, consumed, started, 0, 0, 0, 0);
  }

  /** The launch behind the start mark, the worker's own hello, and a clock in time. */
  ghost predicate Admitted(log: seq<Event>, p: Path, h: Digest, t: Terms) {
    && p.started + 8 < p.launched < p.hello < |log| && p.received < p.hello && p.read < |log|
    && log[p.launched].Launched? && log[p.launched].hash == h && log[p.launched].worker.Running()
    && (forall d | 0 <= d < 8 :: log[p.launched - 8 + d] == Stepped(LAUNCH[d], log[p.launched].worker.pid, true))
    && log[p.hello].HelloAccepted? && log[p.received] == Received(log[p.hello].frame)
    && HelloOf(log[p.hello].frame, log[p.launched], t)
    && InTimeAt(log, p.read, log[p.launched].at)
  }

  /** Entry k is the last reading of the log, the controller's own; it agreed with the
      validator after all own readings before it, and lies within the 30 seconds. */
  ghost predicate InTimeAt(log: seq<Event>, k: nat, at: U64) {
    && k < |log| && log[k].Read? && log[k].own && (forall j | k < j < |log| :: !log[j].Read?)
    && !ClockAfter(log[..k]).failed && Agrees(ClockAfter(log[..k]), log[k].reading)
    && at <= log[k].reading.mono < at + DURATION
  }

  /** A work permission was preceded, in this order and for one and the same target, by
      the human's own assent to that target's hash, the four successful writes of the
      consumption, the successful start mark, the eight steps of the launch, the launch of
      a worker that passed them, and the accepted hello of that very process with the
      approved image; the last reading of the clock agreed with all before it and was
      within the 30 seconds from the launch; and the permission grants the target's own limits. */
  lemma WorkPermitted(log: seq<Event>, i: nat, t: Terms) returns (h: Digest, p: Path)
    requires Lawful(log, t) && i < |log| && log[i].Sent? && log[i].kind == ADMISSION
    ensures Consumed(log[..i], p, h, t) && Admitted(log[..i], p, h, t)
    ensures log[i].frame == Admission(h, log[p.launched].at, t.target.handles, t.target.working, t.target.commit)
  {
    hide Lawful, InTime, HelloOf, Admission, Agrees, ClockAfter, Agreed, TargetHash;
    LawfulPrefix(log, i, t);
    var launched, hello := PermissionBefore(log, i, t);
    var past := log[..i];
    var other, received := HelloBefore(past, hello, t);
    OneLaunch(past, launched, other, t);
    var started := LaunchInOrder(past, launched, t);
    h := past[launched].hash;
    p := StartConsumed(past, started, t);
    var read := InTimeMeans(past, past[launched].at);
    assert past[..read] == log[..read];
    p := p.(launched := launched, received := received, hello := hello, read := read);
  }

  lemma LawfulPrefix(log: seq<Event>, i: nat, t: Terms)
    requires Lawful(log, t) && i <= |log|
    ensures Lawful(log[..i], t)
  {
    hide Legal;
    forall k | 0 <= k < i ensures Legal(log[..i][..k], log[..i][k], t) {
      assert log[..i][..k] == log[..k];
    }
  }

  lemma OneLaunch(log: seq<Event>, a: nat, b: nat, t: Terms)
    requires Lawful(log, t) && a < |log| && b < |log| && log[a].Launched? && log[b].Launched?
    ensures a == b
  {
    hide Lawful;
    if a < b { AtMostOnce(log, a, b, t); }
    if b < a { AtMostOnce(log, b, a, t); }
  }

  /** Each write is attempted at most once, and so are the creation of the worker, the
      launch, the work permission, the acknowledgement and the stop. */
  lemma AtMostOnce(log: seq<Event>, i: nat, j: nat, t: Terms)
    requires Lawful(log, t) && i < j < |log|
    ensures log[i].Wrote? && log[j].Wrote? ==> log[i].write != log[j].write
    ensures !(log[i].Launched? && log[j].Launched?)
    ensures !(log[i].Stepped? && log[i].step == CreateStep && log[j].Stepped? && log[j].step == CreateStep)
    ensures log[i].Sent? && log[j].Sent? ==> log[i].kind != log[j].kind
  {
    hide Prior, InTime, HelloOf;
    assert Legal(log[..j], log[j], t);
    assert log[..j][i] == log[i];
  }

  /** Any sequence of calls to begin and pump, whatever the platform and the store answer
      to each question. */
  method Run(target: FixedTarget, scopeHash: ScopeHash, binding: Binding, world: World, h: Hash, calls: seq<bool>)
    returns (controller: Controller)
    requires world.log == [] && world.terms == Terms(binding, target.grant, target.sid)
    modifies world
    ensures controller.Valid() && controller.target == target && controller.world == world
    // The log is lawful: the lemmas above apply to it.
    ensures Lawful(world.log, world.terms)
    // A write not known to have succeeded is never reported as a consumption.
    ensures (exists i | 0 <= i < |world.log| :: world.log[i].Wrote? && world.log[i].result != Done) ==>
        !controller.flow.record.confirmed
    ensures controller.flow.record.unknown ==> !controller.flow.record.confirmed
    // Every frame for the worker's side is accepted there.
    ensures !Feed(Fresh(controller.flow.hash, false, false), SentFrames(world.log), h).failed
    // A PASS stands for a settled, exact run.
    ensures controller.finished && controller.verdict == Pass ==> controller.core.supervisor.Passed()
  {
    hide Controller.ValidWith, Supervisor.Passed, Controller.Orderly, Controller.Ready, Feed, Fresh, Lawful, SentFrames;
    controller := new Controller(target, scopeHash, binding, world, h);
    for i := 0 to |calls|
      invariant controller.Valid() && controller.Orderly() && controller.Judged() && controller.Ready()
      invariant fresh(controller.Repr() - {world})
    {
      var ok;
      if calls[i] { ok := controller.Begin(); } else { ok := controller.Pump(); }
    }
    AtTheEnd(controller, h);
  }

  /** What a valid controller shows. */
  lemma AtTheEnd(controller: Controller, h: Hash)
    requires controller.Valid()
    ensures Lawful(controller.world.log, controller.world.terms)
    ensures (exists i | 0 <= i < |controller.world.log| ::
        controller.world.log[i].Wrote?
        && controller.world.log[i].result != Done)
            ==> !controller.flow.record.confirmed
    ensures controller.flow.record.unknown ==> !controller.flow.record.confirmed
    ensures !Feed(Fresh(controller.flow.hash, false, false), SentFrames(controller.world.log), h).failed
  {
    hide Feed, Fresh, SentFrames, Lawful, Supervisor.Passed;
    var grant, frames := controller.target.grant, SentFrames(controller.world.log);
    if frames == [] {
      NothingFed(controller.flow.hash, h);
    } else {
      RepliesAccepted(frames, controller.flow.hash, controller.core.supervisor.launchedAt, grant, h);
    }
  }

  lemma NothingFed(hash: Digest, h: Hash)
    ensures Feed(Fresh(hash, false, false), [], h) == Fresh(hash, false, false) && !Fresh(hash, false, false).failed
  {
  }
}
