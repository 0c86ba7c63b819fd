/** The seam of the admission controller: the clock, the grant store, the approval dialog,
    the worker process and its pipe. Every call may answer anything or throw. What the
    code attempted, and what it was told, is kept in one log; Lawful says which logs a
    careful controller may leave behind. */
module PermissionLog {
  import opened WireBytes
  import opened Settlements
  import opened Channels
  import opened Frames

  // ----- targets and approval

  predicate SafeId(s: string) {
    0 < |s| <= 80 && forall i | 0 <= i < |s| ::
      'a' <= s[i] <= 'z' || 'A' <= s[i] <= 'Z' || '0' <= s[i] <= '9' || s[i] == '-' || s[i] == '_' || s[i] == '.'
  }

  predicate HexDigest(s: string, n: nat) {
    |s| == n && forall i | 0 <= i < n :: '0' <= s[i] <= '9' || 'a' <= s[i] <= 'f'
  }

  const CRYPTO_LIMITS := [1, 3, 3, 6, 3, 45, 45]
  const NO_LIMITS := [0, 0, 0, 0, 0, 0, 0]

  /** What is approved. The identifiers start with the batch; image is the executable's
      digest, the other digests and the two revisions are text. */
  datatype Target = Target(batch: string, ids: seq<string>, image: Digest, digests: seq<string>, revisions: seq<string>,
                           scope: string, abiLimits: seq<nat>, evidenceScope: string,
                           nonElevated: bool, reviewerApproved: bool, verifierApproved: bool, outputApproved: bool,
                               userApproved: bool,
                           working: U64, commit: U64, handles: U32, windowStart: U64, windowEnd: U64, maxExecution: U64)
  {
    predicate AdmissionOnly() { scope == "L1-ADMISSION" && abiLimits == NO_LIMITS }

    predicate StructureComplete() {
      && SafeId(batch) && (forall i | 0 <= i < |ids| :: SafeId(ids[i])) && SafeId(evidenceScope)
      && (forall i | 0 <= i < |digests| :: HexDigest(digests[i], 64))
      && (forall i | 0 <= i < |revisions| :: HexDigest(revisions[i], 40))
      && ((scope == "L1-CRYPTO" && abiLimits == CRYPTO_LIMITS) || AdmissionOnly())
      && nonElevated && outputApproved && working != 0 && commit != 0 && handles != 0 && maxExecution == DURATION
      && windowEnd > windowStart && windowEnd - windowStart >= maxExecution
    }

    predicate ValidPreApproval() { StructureComplete() && reviewerApproved && verifierApproved }
  }

  /** The binding hash is any function of target and account that may also fail. */
  type Binding = (Target, string) -> Option<Digest>

  function TargetHash(binding: Binding, t: Target, sid: string): Option<Digest> {
    if t.ValidPreApproval() && sid != "" then binding(t, sid) else None
  }

  datatype Response = Response(completed: bool, cancelled: bool, timedOut: bool, checked: bool, suffix: Bytes,
      displayed: Option<Digest>)

  /** The human saw exactly this hash, typed its last six digits and agreed to it. */
  predicate Agreed(r: Response, hash: Digest) {
    r.completed && !r.cancelled && !r.timedOut && r.checked && r.suffix == hash[29..] && r.displayed == Some(hash)
  }

  // ----- clock, store, worker

  datatype Reading = Reading(utc: U64, mono: U64, session: U64, valid: bool)

  /** Inside the approved window, with time for a whole execution left. */
  predicate Window(t: Target, r: Reading) {
    r.valid && t.windowStart <= r.utc < t.windowEnd && t.windowEnd - r.utc >= DURATION
  }

  datatype Clock = Clock(initialized: bool, failed: bool, anchor: Reading, last: Reading)

  const NO_READING := Reading(0, 0, 0, false)
  const NEW_CLOCK := Clock(false, false, NO_READING, NO_READING)

  function Distance(a: nat, b: nat): nat {
    if a > b then a - b else b - a
  }

  /** Same session, both clocks monotone, wall time within a second of elapsed time. */
  predicate Agrees(c: Clock, r: Reading) {
    && r.valid && r.utc != 0 && r.session != 0
    && (c.initialized ==>
          && r.session == c.anchor.session && c.last.utc <= r.utc && c.last.mono <= r.mono
          && c.anchor.utc <= r.utc && c.anchor.mono <= r.mono
          && Distance(r.utc - c.anchor.utc, r.mono - c.anchor.mono) <= 1000)
  }

  function Advanced(c: Clock, r: Reading): Clock {
    if c.initialized then c.(last := r) else Clock(true, false, r, r)
  }

  /** The clock never went back behind its first reading. */
  predicate Sound(c: Clock) {
    c.initialized ==> c.anchor.utc <= c.last.utc && c.anchor.mono <= c.last.mono && c.last.session == c.anchor.session
  }

  /** The validator's clock after one more reading: one that does not agree closes it. */
  function NextClock(c: Clock, r: Reading): Clock {
    if !c.failed && Agrees(c, r) then Advanced(c, r) else c.(failed := true)
  }

  datatype IoResult = Done | Refused | Unsure
  datatype Write = NewReceipt | NewRequest | BurnIssued | MarkConsumed | MarkStart

  datatype WorkerStart = WorkerStart(created: bool, creationUnknown: bool, token: bool, image: bool, dependencies: bool,
                                     handles: bool, resumeAttempted: bool, resumeKnown: bool, resumed: bool,
                                         hello: bool, pid: U32)
  {
    /** Created suspended, every check passed, resumed for certain, and it said hello. */
    predicate Running() {
      created && token && image && dependencies && handles && resumeAttempted && resumeKnown && resumed && hello
    }
  }

  const NO_WORKER := WorkerStart(false, false, false, false, false, false, false, false, false, false, 0)

  /** The steps of a launch, in their order. */
  datatype LaunchStep = CreateStep | TokenStep | ImageStep | DependencyStep | HandlesStep | ResumeStep | HelloStep
      | RecheckStep

  /** What the human was asked to approve: the one target of the run. */
  datatype Terms = Terms(binding: Binding, target: Target, sid: string)

  /** What the outside answered, and what the controller did. A reading is the
      controller's own if its own validator sees it. */
  datatype Event =
    | Responded(response: Response)
    | Wrote(write: Write, hash: Digest, result: IoResult)
    | Read(reading: Reading, own: bool)
    | Stepped(step: LaunchStep, pid: U32, yes: bool)
    | Launched(hash: Digest, at: U64, worker: WorkerStart)
    | Received(frame: Frame)
    | HelloAccepted(frame: Frame)
    | Sent(kind: nat, frame: Frame)

  datatype ResourceSample = ResourceSample(observedAt: U64, working: U64, commit: U64, handles: U32, completed: U32)

  datatype Observed = Observed(worker: ResourceSample, controller: ResourceSample, healthy: bool, exited: bool,
      normalExit: bool)

  // ----- which logs are lawful

  ghost predicate NoWrite(log: seq<Event>, w: Write) {
    forall i | 0 <= i < |log| :: !(log[i].Wrote? && log[i].write == w)
  }

  /** Nothing of a launch happened. */
  ghost predicate NoLaunch(log: seq<Event>) {
    forall i | 0 <= i < |log| :: !log[i].Launched? && !log[i].Stepped?
  }

  ghost predicate NotSent(log: seq<Event>, kind: nat) {
    forall i | 0 <= i < |log| :: !(log[i].Sent? && log[i].kind == kind)
  }

  /** The last clock reading in the log. */
  function LastRead(log: seq<Event>): Option<Event> {
    if log == [] then None
    else if log[|log| - 1].Read? then Some(log[|log| - 1]) else LastRead(log[..|log| - 1])
  }

  /** The controller's own clock, after all of its own readings. */
  function ClockAfter(log: seq<Event>): Clock {
    if log == [] then NEW_CLOCK
    else
      var last := log[|log| - 1];
      var c := ClockAfter(log[..|log| - 1]);
      if last.Read? && last.own then NextClock(c, last.reading) else c
  }

  /** The clock was last read by the controller itself, every reading of its own agreed
      with all before it, and the last is within an execution of time t. */
  ghost predicate InTime(log: seq<Event>, t: U64) {
    var last := LastRead(log);
    && last.Some? && last.value.Read? && last.value.own && !ClockAfter(log).failed
    && t <= last.value.reading.mono < t + DURATION
  }

  /** The human saw the hash of this very target and agreed to it. */
  ghost predicate Assented(log: seq<Event>, h: Digest, t: Terms) {
    TargetHash(t.binding, t.target, t.sid) == Some(h) && exists e | e in log :: e.Responded? && Agreed(e.response, h)
  }

  /** What must have happened, for this very target, before a later write is attempted. */
  function Before(w: Write, h: Digest): Event
    requires w != NewReceipt
  {
    match w
    case NewRequest => Wrote(NewReceipt, h, Done)
    case BurnIssued => Wrote(NewRequest, h, Done)
    case MarkConsumed => Wrote(BurnIssued, h, Done)
    case MarkStart => Wrote(MarkConsumed, h, Done)
  }

  ghost predicate Prior(log: seq<Event>, w: Write, h: Digest, t: Terms) {
    if w == NewReceipt then Assented(log, h, t) else Before(w, h) in log
  }

  /** The step that a step of the launch follows. */
  function Previous(s: LaunchStep): LaunchStep
    requires s != CreateStep
  {
    match s
    case TokenStep => CreateStep case ImageStep => TokenStep case DependencyStep => ImageStep
    case HandlesStep => DependencyStep case ResumeStep => HandlesStep case HelloStep => ResumeStep
    case RecheckStep => HelloStep
  }

  predicate LastIs(log: seq<Event>, e: Event) {
    log != [] && log[|log| - 1] == e
  }

  /** The hello of this worker: its process, the target's hash and image. */
  predicate HelloOf(f: Frame, l: Event, t: Terms)
    requires l.Launched?
  {
    HelloFits(f) && Field(f, 32, 4) == l.worker.pid && f[16..32] == l.hash[..16] && f[48..64] == t.target.image[..16]
  }

  ghost predicate Legal(log: seq<Event>, e: Event, t: Terms) {
    match e
    case Wrote(w, h, _) => NoWrite(log, w) && Prior(log, w, h, t)
    case Stepped(s, pid, _) =>
      if s == CreateStep then NoLaunch(log) && exists h: Digest :: Wrote(MarkStart, h, Done) in log
      else LastIs(log, Stepped(Previous(s), pid, true))
    case Launched(h, _, w) =>
      && (forall i | 0 <= i < |log| :: !log[i].Launched?) && Wrote(MarkStart, h, Done) in log
      && (w.Running() ==> LastIs(log, Stepped(RecheckStep, w.pid, true)))
    case HelloAccepted(f) => Received(f) in log && exists l | l in log ::
        l.Launched? && l.worker.Running()
        && HelloOf(f, l, t)
    case Sent(kind, f) =>
      if kind == ADMISSION then
        && NotSent(log, ADMISSION)
        && exists l, hello | l in log && HelloAccepted(hello) in log ::
             && l.Launched? && l.worker.Running() && HelloOf(hello, l, t) && InTime(log, l.at)
             && f == Admission(l.hash, l.at, t.target.handles, t.target.working, t.target.commit)
      else kind in {ACK, STOP} && !NotSent(log, ADMISSION) && NotSent(log, ACK) && NotSent(log, STOP)
    case _ => true
  }

  ghost predicate Lawful(log: seq<Event>, t: Terms) {
    forall i | 0 <= i < |log| :: Legal(log[..i], log[i], t)
  }

  lemma LawfulAppend(log: seq<Event>, e: Event, t: Terms)
    requires Lawful(log, t) && Legal(log, e, t)
    ensures Lawful(log + [e], t)
  {
    hide Legal;
    forall i | 0 <= i < |log| + 1 ensures Legal((log + [e])[..i], (log + [e])[i], t) {
      assert (log + [e])[..i] == if i < |log| then log[..i] else log;
    }
  }

  /** What a trusted reading is: the last reading of all is the controller's own, and it
      agreed with its clock after all of its readings before. */
  lemma {:induction false} InTimeMeans(log: seq<Event>, t: U64) returns (i: nat)
    requires InTime(log, t)
    ensures i < |log| && log[i].Read? && log[i].own && (forall j | i < j < |log| :: !log[j].Read?)
    ensures !ClockAfter(log[..i]).failed && Agrees(ClockAfter(log[..i]), log[i].reading)
    ensures t <= log[i].reading.mono < t + DURATION
  {
    var n := |log| - 1;
    if log[n].Read? {
      i := n;
    } else {
      i := InTimeMeans(log[..n], t);
      assert log[..n][..i] == log[..i];
    }
  }

  /** The log grew by writes only. */
  ghost predicate Writes(before: seq<Event>, after: seq<Event>) {
    before <= after && forall i | |before| <= i < |after| :: after[i].Wrote?
  }

  /** The frames that were sent, in order. */
  function SentFrames(log: seq<Event>): seq<Frame> {
    if log == [] then []
    else
      var last := log[|log| - 1];
      SentFrames(log[..|log| - 1]) + if last.Sent? then [last.frame] else []
  }

  lemma SentFramesAppend(log: seq<Event>, e: Event)
    ensures SentFrames(log + [e]) == SentFrames(log) + if e.Sent? then [e.frame] else []
  {
    assert (log + [e])[..|log|] == log;
  }

  lemma LastReadAppend(log: seq<Event>, e: Event)
    ensures LastRead(log + [e]) == if e.Read? then Some(e) else LastRead(log)
  {
    assert (log + [e])[..|log|] == log;
  }

  lemma {:induction false} SentFramesKeep(before: seq<Event>, after: seq<Event>)
    requires before <= after && forall i | |before| <= i < |after| :: !after[i].Sent?
    ensures SentFrames(after) == SentFrames(before)
    decreases |after|
  {
    if |after| > |before| {
      SentFramesKeep(before, after[..|after| - 1]);
    } else {
      assert before == after;
    }
  }

  lemma {:induction false} ClockKeeps(before: seq<Event>, after: seq<Event>)
    requires before <= after && forall i | |before| <= i < |after| :: !(after[i].Read? && after[i].own)
    ensures ClockAfter(after) == ClockAfter(before)
    decreases |after|
  {
    if |after| > |before| {
      ClockKeeps(before, after[..|after| - 1]);
    } else {
      assert before == after;
    }
  }

  lemma ClockAppend(log: seq<Event>, e: Event)
    ensures ClockAfter(log + [e]) == if e.Read? && e.own then NextClock(ClockAfter(log), e.reading) else ClockAfter(log)
  {
    assert (log + [e])[..|log|] == log;
  }

  /** The log grew, and not by frames sent or own readings of the clock. */
  ghost predicate Silent(before: seq<Event>, after: seq<Event>) {
    before <= after && forall i | |before| <= i < |after| :: !after[i].Sent? && !(after[i].Read? && after[i].own)
  }

  lemma SilentKeeps(before: seq<Event>, after: seq<Event>)
    requires Silent(before, after)
    ensures forall k | NotSent(before, k) :: NotSent(after, k)
    ensures forall k | NotSent(after, k) :: NotSent(before, k)
    ensures SentFrames(after) == SentFrames(before) && ClockAfter(after) == ClockAfter(before)
  {
    SentFramesKeep(before, after);
    ClockKeeps(before, after);
    forall k | NotSent(after, k) ensures NotSent(before, k) {
      forall i | 0 <= i < |before| ensures !(before[i].Sent? && before[i].kind == k) { assert after[i] == before[i]; }
    }
  }

  lemma WritesNothing(log: seq<Event>)
    ensures Writes(log, log) && Silent(log, log)
  {
  }

  lemma WritesKeep(before: seq<Event>, after: seq<Event>)
    requires Writes(before, after)
    ensures Silent(before, after) && (NoLaunch(before) ==> NoLaunch(after))
    ensures forall k | NotSent(before, k) :: NotSent(after, k)
    ensures forall e | e in before :: e in after
  {
    forall e | e in before ensures e in after {
      var i :| 0 <= i < |before| && before[i] == e;
      assert after[i] == e;
    }
  }

  lemma LawfulWrite(log: seq<Event>, w: Write, h: Digest, result: IoResult, t: Terms)
    requires Lawful(log, t) && NoWrite(log, w) && Prior(log, w, h, t)
    ensures Lawful(log + [Wrote(w, h, result)], t)
  {
    LawfulAppend(log, Wrote(w, h, result), t);
  }

  /** The log grew by steps of a launch only. */
  ghost predicate Steps(before: seq<Event>, after: seq<Event>) {
    before <= after && forall i | |before| <= i < |after| :: after[i].Stepped?
  }

  lemma StepsOne(log: seq<Event>, e: Event)
    requires e.Stepped?
    ensures Steps(log, log + [e])
  {
  }

  lemma LastAppended(log: seq<Event>, e: Event)
    ensures LastIs(log + [e], e)
  {
  }

  lemma StepsTwice(a: seq<Event>, b: seq<Event>, c: seq<Event>)
    requires Steps(a, b) && Steps(b, c)
    ensures Steps(a, c)
  {
    assert forall i | |a| <= i < |b| :: c[i] == b[i];
  }

  /** The log grew by the steps of a launch and the launch. */
  ghost predicate Launches(before: seq<Event>, after: seq<Event>) {
    before <= after && forall i | |before| <= i < |after| :: after[i].Stepped? || after[i].Launched?
  }

  lemma LaunchIsLegal(before: seq<Event>, log: seq<Event>, h: Digest, at: U64, w: WorkerStart, t: Terms)
    requires Lawful(log, t) && Steps(before, log) && NoLaunch(before) && Wrote(MarkStart, h, Done) in before
    requires w.Running() ==> LastIs(log, Stepped(RecheckStep, w.pid, true))
    ensures Lawful(log + [Launched(h, at, w)], t) && Launches(before, log + [Launched(h, at, w)])
  {
    hide Lawful;
    assert forall i | 0 <= i < |before| :: log[i] == before[i];
    LawfulAppend(log, Launched(h, at, w), t);
  }

  // ----- the seam

  class World {
    const terms: Terms
    ghost var log: seq<Event>

    constructor (terms: Terms)
      ensures this.terms == terms && log == []
    {
      this.terms, log := terms, [];
    }

    /** A yes-or-no question to the store or the platform; an exception is one answer. */
    method Ask() returns (threw: bool, yes: bool)
    {
      threw, yes := *, *;
    }

    /** One attempt at a write; one that throws may have happened. */
    method Attempt(write: Write, hash: Digest) returns (threw: bool, result: IoResult)
      modifies this
      ensures log == old(log) + [Wrote(write, hash, if threw then Unsure else result)]
    {
      threw, result := *, *;
      log := log + [Wrote(write, hash, if threw then Unsure else result)];
    }

    method ReadClock(ghost own: bool) returns (threw: bool, r: Reading)
      modifies this
      ensures log == if threw then old(log) else old(log) + [Event.Read(r, own)]
    {
      threw, r := *, *;
      if !threw { log := log + [Event.Read(r, own)]; }
    }

    /** One step of the launch. */
    method Step(s: LaunchStep, pid: U32) returns (threw: bool, yes: bool)
      requires Lawful(log, terms) && s != CreateStep && LastIs(log, Stepped(Previous(s), pid, true))
      modifies this
      ensures Lawful(log, terms) && log == old(log) + [Stepped(s, pid, yes)] && (threw ==> !yes)
      ensures Steps(old(log), log) && LastIs(log, Stepped(s, pid, yes))
    {
      threw, yes := *, *;
      yes := yes && !threw;
      LawfulAppend(log, Stepped(s, pid, yes), terms);
      log := log + [Stepped(s, pid, yes)];
    }

    /** Creates the worker, suspended. */
    method Create() returns (threw: bool, yes: bool, unknown: bool, pid: U32)
      requires Lawful(log, terms) && NoLaunch(log) && exists h: Digest :: Wrote(MarkStart, h, Done) in log
      modifies this
      ensures Lawful(log, terms) && log == old(log) + [Stepped(CreateStep, pid, yes)] && (threw ==> !yes)
    {
      threw, yes, unknown, pid := *, *, *, *;
      yes := yes && !threw;
      LawfulAppend(log, Stepped(CreateStep, pid, yes), terms);
      log := log + [Stepped(CreateStep, pid, yes)];
    }

    /** The launch, in its one order: create, four checks, resume, hello, and the
        dependencies again. The first step that fails is the last. An exception leaves it
        unknown whether there is a worker. */
    method StartSuspended(hash: Digest, at: U64) returns (w: WorkerStart)
      requires Lawful(log, terms) && NoLaunch(log) && Wrote(MarkStart, hash, Done) in log
      modifies this
      ensures Lawful(log, terms) && Launches(old(log), log) && Launched(hash, at, w) in log
    {
      hide Legal, Lawful;
      ghost var before := log;
      w := LaunchOnce(hash);
      LaunchIsLegal(before, log, hash, at, w, terms);
      log := log + [Launched(hash, at, w)];
    }

    method LaunchOnce(ghost hash: Digest) returns (w: WorkerStart)
      requires Lawful(log, terms) && NoLaunch(log) && Wrote(MarkStart, hash, Done) in log
      modifies this
      ensures Lawful(log, terms) && Steps(old(log), log)
      ensures w.Running() ==> LastIs(log, Stepped(RecheckStep, w.pid, true))
    {
      hide Legal, Lawful, NoLaunch, Steps, LastIs;
      ghost var before := log;
      w := NO_WORKER;
      var threw, yes, unknown, pid := Create();
      ghost var created := log;
      StepsOne(before, Stepped(CreateStep, pid, yes));
      if threw { return NO_WORKER.(creationUnknown := true); }
      w := w.(created := yes, creationUnknown := unknown, pid := pid);
      if !yes { return; }
      LastAppended(before, Stepped(CreateStep, pid, true));
      var good;
      good, threw := Check(pid);
      ghost var checked := log;
      StepsTwice(before, created, checked);
      if threw { return NO_WORKER.(creationUnknown := true); }
      if !good { return; }
      w := w.(token := true, image := true, dependencies := true, handles := true, resumeAttempted := true);
      w := Wake(w);
      StepsTwice(before, checked, log);
    }

    /** Resume, hello, and the dependencies once more. */
    method Wake(checked: WorkerStart) returns (w: WorkerStart)
      requires Lawful(log, terms) && LastIs(log, Stepped(HandlesStep, checked.pid, true)) && !checked.hello
      modifies this
      ensures Lawful(log, terms) && Steps(old(log), log)
      ensures w.Running() ==> LastIs(log, Stepped(RecheckStep, w.pid, true))
    {
      hide Legal, Lawful, NoLaunch, Steps, LastIs;
      ghost var before := log;
      w := checked;
      var threw, yes := Step(ResumeStep, w.pid);
      ghost var resumed := log;
      if threw { return NO_WORKER.(creationUnknown := true); }
      if !yes {
        var resumed, known := *, *;
        w := w.(resumed := resumed, resumeKnown := known && !resumed);
        return;
      }
      w := w.(resumed := true, resumeKnown := true);
      threw, yes := Step(HelloStep, w.pid);
      ghost var greeted := log;
      StepsTwice(before, resumed, greeted);
      if threw { return NO_WORKER.(creationUnknown := true); }
      w := w.(hello := yes);
      if !yes { return; }
      threw, yes := Step(RecheckStep, w.pid);
      StepsTwice(before, greeted, log);
      if threw { return NO_WORKER.(creationUnknown := true); }
      w := w.(dependencies := yes);
    }

    /** Token, image, dependencies and handles, up to the first that fails. */
    method Check(pid: U32) returns (good: bool, threw: bool)
      requires Lawful(log, terms) && LastIs(log, Stepped(CreateStep, pid, true))
      modifies this
      ensures Lawful(log, terms) && Steps(old(log), log) && (threw ==> !good)
      ensures good ==> LastIs(log, Stepped(HandlesStep, pid, true))
    {
      hide Legal, Lawful, NoLaunch;
      threw, good := Step(TokenStep, pid);
      if !good { return; }
      threw, good := Step(ImageStep, pid);
      if !good { return; }
      threw, good := Step(DependencyStep, pid);
      if !good { return; }
      threw, good := Step(HandlesStep, pid);
    }

    method Approve() returns (threw: bool, ok: bool, response: Response)
      modifies this
      ensures log == if threw then old(log) else old(log) + [Responded(response)]
    {
      threw, ok, response := *, *, *;
      if !threw { log := log + [Responded(response)]; }
    }

    method Observe() returns (threw: bool, o: Observed)
    {
      threw, o := *, *;
    }

    method Next() returns (threw: bool, ok: bool, available: bool, f: Frame)
      modifies this
      ensures log == if threw || !available then old(log) else old(log) + [Received(f)]
    {
      threw, ok, available, f := *, *, *, *;
      if !threw && available { log := log + [Received(f)]; }
    }

    method Send(kind: nat, f: Frame) returns (threw: bool, ok: bool)
      modifies this
      ensures log == old(log) + [Sent(kind, f)]
    {
      threw, ok := *, *;
      log := log + [Sent(kind, f)];
    }
  }
}
