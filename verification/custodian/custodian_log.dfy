/** What the process that owns a worker's handles does to it and writes down about it, as
    one log, and which logs a careful custodian may leave behind. */
module CustodianLog {
  import opened WireBytes
  import opened Settlements
  import opened PermissionLog

  /** The responsibility states in their order, and the one everything may fall to. */
  datatype State =
    | Preapproved | Ready | Accepted | Consumed | Intent | Attempt | Identified | Acknowledged
    | ResumeIntent | Resumed | Exited | Settled | Released | UnknownState

  function Rank(s: State): (r: nat)
    ensures r <= 13 && (r == 13 <==> s == UnknownState) && (r == 12 <==> s == Released)
  {
    match s
    case Preapproved => 0 case Ready => 1 case Accepted => 2 case Consumed => 3 case Intent => 4
    case Attempt => 5 case Identified => 6 case Acknowledged => 7 case ResumeIntent => 8 case Resumed => 9
    case Exited => 10 case Settled => 11 case Released => 12 case UnknownState => 13
  }

  /** Forward, or down to unknown; released is final and so is unknown. */
  predicate Advances(s: State, t: State) {
    s == t || (s != Released && s != UnknownState && Rank(s) < Rank(t))
  }

  // ----- what custody is about

  datatype Identity = Identity(pid: U32, creation: U64, image: Digest, account: string, target: Digest, owner: string,
                               medium: bool, nonElevated: bool)

  const NO_IDENTITY := Identity(0, 0, seq(32, i => 0), "", seq(32, i => 0), "", false, false)

  datatype ResourceLimit = ResourceLimit(working: U64, commit: U64, handles: U32) {
    predicate Valid() { working != 0 && commit != 0 && handles != 0 }
  }

  /** What was approved and frozen: sound says that its own checks pass. */
  datatype Frozen = Frozen(grant: Target, sound: bool, digest: Digest, owner: string, account: string, limits: Digest,
                           maxPumps: U32,
                           controller: ResourceLimit)

  /** The frozen target, and how an identity is hashed. */
  datatype Charge = Charge(frozen: Frozen, idHash: Identity -> Option<Digest>)

  /** What was found about the consumed grant. */
  datatype Consumption = Consumption(pinned: bool, marker: nat, pinsValid: bool, journalValid: bool, kind: nat,
      receiptValid: bool,
                                     issued: Reading, now: Reading, target: Digest, objects: Option<Digest>,
                                         journalObjects: Digest,
                                     launchUtc: U64, launchMono: U64, session: U64)

  function LaunchOf(c: Consumption): Reading {
    Reading(c.launchUtc, c.launchMono, c.session, true)
  }

  /** The proof says that the grant of this very target was consumed: pinned, marked,
      every part of it valid and about the same objects and session. */
  predicate Stated(charge: Charge, read: bool, c: Consumption) {
    && read && c.pinned && c.marker == 2 && c.pinsValid && c.journalValid && c.kind == 3 && c.receiptValid
    && c.target == charge.frozen.digest && c.objects == Some(c.journalObjects) && c.session == c.issued.session
  }

  /** And issue, launch and now are in this order for a clock of their own. */
  predicate GoodProof(charge: Charge, c: Consumption) {
    Stated(charge, true, c) && !NextClock(NextClock(NextClock(NEW_CLOCK, c.issued), LaunchOf(c)), c.now).failed
  }

  /** What the order of a good proof means. */
  lemma ProofInOrder(charge: Charge, c: Consumption)
    requires GoodProof(charge, c)
    ensures c.issued.valid && c.now.valid && c.issued.session == c.session == c.now.session != 0
    ensures 0 < c.issued.utc <= c.launchUtc <= c.now.utc && c.issued.mono <= c.launchMono <= c.now.mono
  {
  }

  /** The identity is that of a process of this target, unprivileged. */
  predicate FitsCharge(charge: Charge, p: Identity) {
    var f := charge.frozen;
    && p.creation != 0 && p.target == f.digest && p.owner == f.owner && p.image == f.grant.image
    && p.account == f.account && p.medium && p.nonElevated
  }

  // ----- acts

  datatype Check = TokenCheck | ImageCheck | HandlesCheck | DependenciesCheck | HelloCheck

  datatype Act =
    | Recorded(state: State, ok: bool)
    | ClockRead(reading: Reading)
    | Proved(launch: Reading)
    | ProofRead(read: bool, proof: Consumption)
    | Named(identity: Identity)
    | LossNoted
    | AcceptedIntent(ok: bool)
    | CreatedWorker(created: bool, pid: U32)
    | AckedIdentity(ok: bool)
    | Checked(check: Check, ok: bool)
    | ResumedWorker(known: bool, ok: bool)
    | ObservedWorker(healthy: bool, exited: bool)
    | PolledWorker
    | SentFrame
    | ClosedExit(ok: bool)
    | ClosedIo(ok: bool)

  /** Notes cost nothing; every other kind of act is counted. */
  datatype Kind = Note | Acceptance | Creation | Acknowledgement | Question(check: Check) | Resumption | Looking | Poll
                | Sending | ExitClose | IoClose

  function KindOf(a: Act): Kind {
    match a
    case AcceptedIntent(_) => Acceptance
    case CreatedWorker(_, _) => Creation
    case AckedIdentity(_) => Acknowledgement
    case Checked(c, _) => Question(c)
    case ResumedWorker(_, _) => Resumption
    case ObservedWorker(_, _) => Looking
    case PolledWorker => Poll
    case SentFrame => Sending
    case ClosedExit(_) => ExitClose
    case ClosedIo(_) => IoClose
    case _ => Note
  }

  function Count(log: seq<Act>, k: Kind): (n: nat)
    ensures n <= |log|
  {
    if log == [] then 0
    else Count(log[..|log| - 1], k) + if KindOf(log[|log| - 1]) == k then 1 else 0
  }

  lemma CountMore(log: seq<Act>, a: Act, k: Kind)
    ensures Count(log + [a], k) == Count(log, k) + if KindOf(a) == k then 1 else 0
  {
    assert (log + [a])[..|log|] == log;
  }

  lemma {:induction false} CountMonotone(log: seq<Act>, i: nat, k: Kind)
    requires i <= |log|
    ensures Count(log[..i], k) <= Count(log, k)
  {
    if i == |log| {
      assert log[..i] == log;
    } else {
      CountMonotone(log[..|log| - 1], i, k);
      assert log[..|log| - 1][..i] == log[..i];
    }
  }

  lemma {:induction false} QuestionAsked(log: seq<Act>, c: Check)
    requires Count(log, Question(c)) > 0
    ensures Checked(c, true) in log || Checked(c, false) in log
  {
    var last := log[|log| - 1];
    if KindOf(last) == Question(c) {
      assert last == Checked(c, last.ok);
    } else {
      QuestionAsked(log[..|log| - 1], c);
    }
  }

  /** How often an act may be attempted; None is no bound of its own. */
  function Cap(k: Kind): Option<nat> {
    match k
    case Acceptance => Some(1)
    case Creation => Some(1)
    case Question(c) => Some(if c == DependenciesCheck then 2 else 1)
    case Resumption => Some(1)
    case Sending => Some(3)
    case ExitClose => Some(1)
    case IoClose => Some(1)
    case _ => None
  }

  /** The custodian's validator after all it was shown: the readings of a proof that says
      what it should, and every reading of its own. */
  function CustodyClock(log: seq<Act>, charge: Charge): Clock {
    if log == [] then NEW_CLOCK
    else Shown(CustodyClock(log[..|log| - 1], charge), log[|log| - 1], charge)
  }

  function Shown(c: Clock, a: Act, charge: Charge): Clock {
    match a
    case ClockRead(r) => NextClock(c, r)
    case ProofRead(read, proof) =>
      if Stated(charge, read, proof) then NextClock(NextClock(c, proof.issued), proof.now) else c
    case _ => c
  }

  lemma CustodyClockMore(log: seq<Act>, a: Act, charge: Charge)
    ensures CustodyClock(log + [a], charge) == Shown(CustodyClock(log, charge), a, charge)
  {
    assert (log + [a])[..|log|] == log;
  }

  /** A clock that has not failed never had. */
  lemma {:induction false} NeverFailed(log: seq<Act>, charge: Charge, i: nat)
    requires i <= |log| && !CustodyClock(log, charge).failed
    ensures !CustodyClock(log[..i], charge).failed
  {
    if i == |log| {
      assert log[..i] == log;
    } else {
      NeverFailed(log[..|log| - 1], charge, i);
      assert log[..|log| - 1][..i] == log[..i];
    }
  }

  /** The clock was read just now; it agrees with all it was shown before, and lies inside
      the approved window and within an execution of the launch. */
  predicate InTimeFor(log: seq<Act>, charge: Charge, launch: Reading) {
    && log != [] && log[|log| - 1].ClockRead? && !CustodyClock(log, charge).failed
    && Window(charge.frozen.grant, log[|log| - 1].reading)
    && launch.mono <= log[|log| - 1].reading.mono < launch.mono + DURATION
  }

  ghost predicate TimelyNow(log: seq<Act>, charge: Charge) {
    exists launch: Reading :: Proved(launch) in log && InTimeFor(log, charge, launch)
  }

  /** A good proof was read, and this is its launch. */
  ghost predicate ProvenBy(log: seq<Act>, charge: Charge, launch: Reading) {
    exists c: Consumption :: ProofRead(true, c) in log && GoodProof(charge, c) && launch == LaunchOf(c)
  }

  /** The created process was looked at, and this is what it was found to be. */
  predicate Found(log: seq<Act>, p: Identity) {
    Named(p) in log && CreatedWorker(true, p.pid) in log
  }

  /** Entry k looks at the worker once more, with the intent to resume on record, and finds
      it to be p again. */
  ghost predicate SameAgain(log: seq<Act>, k: nat, charge: Charge, p: Identity) {
    && k < |log| && log[k].Named? && Recorded(ResumeIntent, true) in log[..k]
    && charge.idHash(log[k].identity) == charge.idHash(p)
  }

  /** The process that was identified was identified again before its resumption. */
  ghost predicate Reidentified(log: seq<Act>, charge: Charge) {
    exists k: nat, p: Identity :: SameAgain(log, k, charge, p) && Found(log[..k], p) && FitsCharge(charge, p)
  }

  /** What a record of a state stands for. */
  ghost predicate Truthful(log: seq<Act>, s: State, charge: Charge) {
    match s
    case Ready => AcceptedIntent(true) in log
    case Consumed => exists launch: Reading :: Proved(launch) in log
    case Identified => exists p: Identity :: Found(log, p) && FitsCharge(charge, p)
    case Acknowledged => AckedIdentity(true) in log
    case Resumed => ResumedWorker(true, true) in log
    case Exited => ClosedExit(true) in log
    case Released => ClosedIo(true) in log
    case _ => true
  }

  ghost predicate Permitted(log: seq<Act>, a: Act, charge: Charge) {
    && (Cap(KindOf(a)).Some? ==> Count(log, KindOf(a)) < Cap(KindOf(a)).value)
    && match a
       case Recorded(s, _) => s == UnknownState || (Truthful(log, s, charge) && Preceded(log, s))
       case Proved(launch) => ProvenBy(log, charge, launch) && !CustodyClock(log, charge).failed
       case CreatedWorker(_, _) => Recorded(Attempt, true) in log && TimelyNow(log, charge)
       case AckedIdentity(_) => Recorded(Identified, true) in log && TimelyNow(log, charge)
       case Checked(c, _) => Recorded(if c == HelloCheck then Resumed else Identified, true) in log
       case ResumedWorker(_, _) =>
         && Count(log, Question(TokenCheck)) == Count(log, Question(ImageCheck)) == 1
         && Count(log, Question(HandlesCheck)) == Count(log, Question(DependenciesCheck)) == 1
         && Recorded(Acknowledged, true) in log && AckedIdentity(true) in log && Recorded(ResumeIntent, true) in log
         && TimelyNow(log, charge) && Reidentified(log, charge)
       case ObservedWorker(_, _) => Recorded(Accepted, true) in log
       case PolledWorker => Recorded(Resumed, true) in log
       case SentFrame => Recorded(Resumed, true) in log
       case ClosedExit(_) => Recorded(Resumed, true) in log && ObservedWorker(true, true) in log
       case ClosedIo(_) => Recorded(Settled, true) in log && ClosedExit(true) in log
       case _ => true
  }

  /** The state before this one was written down. */
  ghost predicate Preceded(log: seq<Act>, s: State) {
    forall t: State | t != Preapproved && Rank(t) + 1 == Rank(s) :: Recorded(t, true) in log
  }

  ghost predicate Careful(log: seq<Act>, charge: Charge) {
    forall i | 0 <= i < |log| :: Permitted(log[..i], log[i], charge)
  }

  lemma CarefulMore(log: seq<Act>, a: Act, charge: Charge)
    requires Careful(log, charge) && Permitted(log, a, charge)
    ensures Careful(log + [a], charge)
  {
    hide Permitted;
    var more := log + [a];
    forall i | 0 <= i < |more| ensures Permitted(more[..i], more[i], charge) {
      assert more[..i] == if i < |log| then log[..i] else log;
    }
  }

  lemma CarefulBefore(log: seq<Act>, charge: Charge, i: nat)
    requires Careful(log, charge) && i <= |log|
    ensures Careful(log[..i], charge)
  {
    hide Permitted;
    forall k | 0 <= k < i ensures Permitted(log[..i][..k], log[..i][k], charge) { assert log[..i][..k] == log[..k]; }
  }

  /** Over a lawful log no cap was exceeded. */
  lemma {:induction false} CapsHold(log: seq<Act>, charge: Charge, k: Kind)
    requires Careful(log, charge) && Cap(k).Some?
    ensures Count(log, k) <= Cap(k).value
  {
    hide Truthful, Preceded, TimelyNow, Reidentified, ProvenBy;
    if log != [] {
      var n := |log| - 1;
      assert Permitted(log[..n], log[n], charge);
      CarefulBefore(log, charge, n);
      CapsHold(log[..n], charge, k);
    }
  }

  /** b goes on from a with notes only. */
  ghost predicate Quiet(a: seq<Act>, b: seq<Act>) {
    a <= b && forall i | |a| <= i < |b| :: KindOf(b[i]) == Note
  }

  lemma QuietTwice(a: seq<Act>, b: seq<Act>, c: seq<Act>)
    requires (Quiet(a, b) || a == b) && (Quiet(b, c) || b == c)
    ensures Quiet(a, c)
  {
  }

  lemma QuietIn(a: seq<Act>, b: seq<Act>, x: Act)
    requires Quiet(a, b) && x in a
    ensures x in b
  {
  }

  lemma {:induction false} QuietCounts(a: seq<Act>, b: seq<Act>, k: Kind)
    requires Quiet(a, b) && k != Note
    ensures Count(b, k) == Count(a, k)
  {
    if a == b {
    } else {
      QuietCounts(a, b[..|b| - 1], k);
    }
  }

  // ----- what a negative answer means

  /** Every check that was made succeeded. */
  ghost predicate Passed(log: seq<Act>) {
    forall c: Check :: Checked(c, false) !in log
  }

  /** The worker was resumed only while every check made so far had succeeded. */
  ghost predicate Guarded(log: seq<Act>) {
    forall i | 0 <= i < |log| && log[i].ResumedWorker? :: Passed(log[..i])
  }

  /** b goes on from a without a resumption or a check. */
  ghost predicate Plain(a: seq<Act>, b: seq<Act>) {
    a <= b && forall i | |a| <= i < |b| :: !b[i].ResumedWorker? && !b[i].Checked?
  }

  lemma PlainKeeps(a: seq<Act>, b: seq<Act>)
    requires Plain(a, b)
    ensures Passed(a) ==> Passed(b)
    ensures Guarded(a) ==> Guarded(b)
  {
    forall i | 0 <= i < |a| ensures b[..i] == a[..i] && b[i] == a[i] { }
    assert forall x | x in b && x.Checked? :: x in a;
  }

  lemma GuardedMore(a: seq<Act>, x: Act)
    requires Guarded(a) && (x.ResumedWorker? ==> Passed(a))
    ensures Guarded(a + [x])
    ensures Passed(a) && (x.Checked? ==> x.ok) ==> Passed(a + [x])
  {
    forall i | 0 <= i <= |a| ensures (a + [x])[..i] == a[..i] { }
    assert a[..|a|] == a;
  }

  /** Whatever good was true of a is true of b. */
  ghost predicate Stands(a: seq<Act>, b: seq<Act>) {
    (Passed(a) ==> Passed(b)) && (Guarded(a) ==> Guarded(b))
  }

  /** Whatever good was true of a is true of b, and no identity was acknowledged since. */
  ghost predicate Upholds(a: seq<Act>, b: seq<Act>) {
    Stands(a, b) && Count(b, Acknowledgement) == Count(a, Acknowledgement)
  }

  /** Entry i is a good proof of the grant, and its readings agreed with everything the
      custodian's validator had been shown by then. */
  ghost predicate ProofAt(log: seq<Act>, i: nat, charge: Charge) {
    && i < |log| && log[i].ProofRead? && log[i].read && GoodProof(charge, log[i].proof)
    && var c := CustodyClock(log[..i], charge);
       !c.failed && Agrees(c, log[i].proof.issued) && Agrees(Advanced(c, log[i].proof.issued), log[i].proof.now)
  }

  /** The clock was read just now, and lies inside the approved window and within an
      execution of the launch that a good proof states. */
  ghost predicate TimelyByProof(log: seq<Act>, charge: Charge) {
    exists i: nat :: ProofAt(log, i, charge) && InTimeFor(log, charge, LaunchOf(log[i].proof))
  }

  /** What a reading in time is: it agreed with everything the validator was shown before,
      which never failed. */
  lemma LastAgrees(log: seq<Act>, charge: Charge, launch: Reading)
    requires InTimeFor(log, charge, launch)
    ensures var n := |log| - 1; var c := CustodyClock(log[..n], charge); !c.failed && Agrees(c, log[n].reading)
  {
  }

  /** Behind a timely clock there is the proof. */
  lemma TimelyMeans(log: seq<Act>, charge: Charge)
    requires Careful(log, charge) && TimelyNow(log, charge)
    ensures TimelyByProof(log, charge)
  {
    hide InTimeFor, ProofAt, Careful, GoodProof;
    var launch: Reading :| Proved(launch) in log && InTimeFor(log, charge, launch);
    var i := ProofBehind(log, charge, launch);
    NotFailedInTime(log, charge, launch);
    ProofAccepted(log, charge, i);
  }

  lemma ProofBehind(log: seq<Act>, charge: Charge, launch: Reading) returns (i: nat)
    requires Careful(log, charge) && Proved(launch) in log
    ensures i < |log| && log[i].ProofRead? && log[i].read && GoodProof(charge, log[i].proof)
    ensures launch == LaunchOf(log[i].proof)
  {
    hide GoodProof, CustodyClock;
    var j :| 0 <= j < |log| && log[j] == Proved(launch);
    assert Permitted(log[..j], log[j], charge);
    var c: Consumption :| ProofRead(true, c) in log[..j] && GoodProof(charge, c) && launch == LaunchOf(c);
    i :| 0 <= i < j && log[..j][i] == ProofRead(true, c);
  }

  lemma ProofAccepted(log: seq<Act>, charge: Charge, i: nat)
    requires i < |log| && log[i].ProofRead? && log[i].read && GoodProof(charge, log[i].proof)
    requires !CustodyClock(log, charge).failed
    ensures ProofAt(log, i, charge)
  {
    hide GoodProof, CustodyClock, Shown;
    NeverFailed(log, charge, i + 1);
    assert log[..i + 1] == log[..i] + [log[i]];
    CustodyClockMore(log[..i], log[i], charge);
    ProofShown(CustodyClock(log[..i], charge), log[i].proof, charge);
  }

  lemma NotFailedInTime(log: seq<Act>, charge: Charge, launch: Reading)
    requires InTimeFor(log, charge, launch)
    ensures !CustodyClock(log, charge).failed
  {
  }

  lemma ProofShown(c: Clock, proof: Consumption, charge: Charge)
    requires GoodProof(charge, proof) && !Shown(c, ProofRead(true, proof), charge).failed
    ensures !c.failed && Agrees(c, proof.issued) && Agrees(Advanced(c, proof.issued), proof.now)
  {
  }

  /** Its token, image, handles and dependencies were each found good, its identity was
      acknowledged, that acknowledgement and then the intent to resume were written down,
      it was identified as the same process once more, and the clock, read just now, is
      inside the approved window and the execution time of the proven launch. */
  ghost predicate ReadyToResume(past: seq<Act>, charge: Charge) {
    && (forall c | c in {TokenCheck, ImageCheck, HandlesCheck, DependenciesCheck} :: Checked(c, true) in past)
    && AckedIdentity(true) in past && Recorded(Acknowledged, true) in past && Recorded(ResumeIntent, true) in past
    && Reidentified(past, charge) && TimelyByProof(past, charge)
  }

  lemma OnlyOnce(log: seq<Act>, charge: Charge, i: nat)
    requires Careful(log, charge) && i < |log| && Cap(KindOf(log[i])) == Some(1)
    ensures forall j | 0 <= j < |log| && KindOf(log[j]) == KindOf(log[i]) :: j == i
  {
    hide Count, TimelyNow, Truthful, Preceded;
    forall j | 0 <= j < |log| && KindOf(log[j]) == KindOf(log[i]) ensures j == i {
      assert Permitted(log[..j], log[j], charge) && Permitted(log[..i], log[i], charge);
      if j < i { Counted(log, j, i); } else if i < j { Counted(log, i, j); }
    }
  }

  /** The worker is resumed at most once, and only when all was ready for it. */
  lemma ResumeIsGuarded(log: seq<Act>, charge: Charge, i: nat)
    requires Careful(log, charge) && Guarded(log) && i < |log| && log[i].ResumedWorker?
    ensures ReadyToResume(log[..i], charge)
    ensures forall j | 0 <= j < |log| && log[j].ResumedWorker? :: j == i
  {
    hide Count, TimelyNow, TimelyByProof, Reidentified;
    var past := log[..i];
    assert Permitted(past, log[i], charge) && Passed(past);
    CarefulBefore(log, charge, i);
    TimelyMeans(past, charge);
    forall c | c in {TokenCheck, ImageCheck, HandlesCheck, DependenciesCheck} ensures Checked(c, true) in past {
      QuestionAsked(past, c);
    }
    OnlyOnce(log, charge, i);
  }

  /** A worker is created at most once, and only with the attempt on record, a good proof of
      the grant read, and the clock in time for the launch it states. */
  lemma CreationIsGuarded(log: seq<Act>, charge: Charge, i: nat)
    requires Careful(log, charge) && i < |log| && log[i].CreatedWorker?
    ensures Recorded(Attempt, true) in log[..i] && TimelyByProof(log[..i], charge)
    ensures forall j | 0 <= j < |log| && log[j].CreatedWorker? :: j == i
  {
    hide Count, TimelyNow, TimelyByProof;
    assert Permitted(log[..i], log[i], charge);
    CarefulBefore(log, charge, i);
    TimelyMeans(log[..i], charge);
    OnlyOnce(log, charge, i);
  }

  /** An identity on record is that of the created process, and it fits the target. */
  lemma IdentityIsGuarded(log: seq<Act>, charge: Charge, i: nat)
    requires Careful(log, charge) && i < |log| && log[i] == Recorded(Identified, true)
    ensures exists p: Identity :: Found(log[..i], p) && FitsCharge(charge, p)
  {
    hide Found, FitsCharge;
    assert Permitted(log[..i], log[i], charge);
  }

  lemma Counted(log: seq<Act>, i: nat, j: nat)
    requires i < j <= |log|
    ensures Count(log[..j], KindOf(log[i])) > 0
  {
    CountMonotone(log[..j], i + 1, KindOf(log[i]));
    assert log[..j][..i + 1] == log[..i] + [log[i]];
    CountMore(log[..i], log[i], KindOf(log[i]));
  }
}
