/** The preparation of a root directory under an exact budget: every step is reserved in
    all counters before it is taken, evidence comes before the creation, and failures are
    recorded where they still can be. */
module Preparations {
  import opened WireBytes
  import opened PreparationCosts

  /** The 64-bit unsigned difference. */
  function Minus(a: nat, b: nat): nat {
    (a - b) % 0x1_0000_0000_0000_0000
  }

  const COUNTERS := [
    Directories, Files, SecurityReads, OsCalls, RootCreates, SecuritySets, EvidenceCreates, HandlesAcquired,
        HandlesClosed,
    HashReads, HashBytes, EvidenceWrites, EvidenceFlushes, EvidenceBytes
  ]

  lemma EveryCounter(c: Counter)
    ensures c in COUNTERS
  {
    assert COUNTERS[0] == Directories && COUNTERS[1] == Files && COUNTERS[2] == SecurityReads && COUNTERS[3] == OsCalls;
    assert COUNTERS[4] == RootCreates && COUNTERS[5] == SecuritySets && COUNTERS[6] == EvidenceCreates;
    assert COUNTERS[7] == HandlesAcquired && COUNTERS[8] == HandlesClosed && COUNTERS[9] == HashReads;
    assert COUNTERS[10] == HashBytes && COUNTERS[11] == EvidenceWrites && COUNTERS[12] == EvidenceFlushes
        && COUNTERS[13] == EvidenceBytes;
  }

  /** What was requested: sound says that everything but the budget is in order. */
  datatype Request = Request(sound: bool, parents: nat, artifacts: nat, evidenceParents: nat, budget: Counts) {
    function Ceil(c: Counter): nat { Ceiling(parents, artifacts, evidenceParents, c) }

    ghost predicate Valid() {
      && sound && 0 < parents <= MAX_PARENTS && 0 < artifacts <= MAX_PINS && 2 <= evidenceParents <= MAX_PARENTS
      && forall c :: 0 < budget(c) <= Ceil(c)
    }

    /** The budget is the whole ceiling. */
    ghost predicate Generous() {
      forall c :: budget(c) == Ceil(c)
    }
  }

  datatype State = Rejected | Uncertain | Pinned
  datatype Failure = NoFailure | Gate | TargetFailure | IdentityFailure | ParentFailure | ArtifactFailure
      | BudgetFailure
                   | CreationFailure | RootFailure | EvidenceFailure | HandoffFailure | CloseFailure
  datatype Creation = Created | Exists | Denied | CreationUnknown
  datatype Answer = Yes | No | Threw

  /** The operating system and the evidence sink. */
  class PreparationSeam {
    /** How many records were preserved, and how many roots were asked for. */
    ghost var kept: nat
    ghost var creations: nat

    constructor ()
      ensures kept == 0 && creations == 0
    {
      kept, creations := 0, 0;
    }

    method Ask() returns (a: Answer)
    {
      a := *;
    }

    method Preserve() returns (a: Answer)
      modifies this`kept
      ensures kept == old(kept) + if a == Yes then 1 else 0
    {
      a := *;
      if a == Yes { kept := kept + 1; }
    }

    method CreateRoot() returns (threw: bool, c: Creation)
      modifies this`creations
      ensures creations == old(creations) + 1
    {
      threw, c := *, *;
      creations := creations + 1;
    }
  }

  class Preparation {
    const request: Request
    const seam: PreparationSeam
    var state: State
    var failure: Failure
    var reserved: Counts
    var evidenceAttempts: nat
    var stopped: bool
    var createAttempted: bool
    var created: bool
    var evidenceOpened: bool
    var evidencePreserved: bool
    var handoffAttempted: bool
    var handoffAcknowledged: bool
    var rootCloseAttempted: bool
    var rootClosed: bool
    var evidenceCloseAttempted: bool
    var evidenceClosed: bool
    var attempted: bool
    var sinkFailed: bool
    /** What was reserved so far, step by step. */
    ghost var uses: Uses

    constructor (request: Request, seam: PreparationSeam)
      requires seam.kept == 0 && seam.creations == 0
      ensures Valid() && this.request == request && this.seam == seam && !attempted && failure == NoFailure
    {
      this.request, this.seam := request, seam;
      state, failure, evidenceAttempts, stopped := Rejected, NoFailure, 0, false;
      reserved := c => 0;
      createAttempted, created, evidenceOpened, evidencePreserved := false, false, false, false;
      handoffAttempted, handoffAcknowledged, rootCloseAttempted, rootClosed := false, false, false, false;
      evidenceCloseAttempted, evidenceClosed, attempted, sinkFailed, uses := false, false, false, false, NO_USES;
    }

    /** What is reserved is what the steps cost, and never more than the budget. */
    ghost predicate Afforded()
      reads `reserved, `uses
    {
      forall c :: reserved(c) == Spent(uses, request.evidenceParents, c) && reserved(c) <= request.budget(c)
    }

    ghost predicate Valid()
      reads this, seam
    {
      && Afforded() && Within(uses, Complete(request.parents, request.artifacts))
      && (!attempted ==>
          uses == NO_USES && failure == NoFailure && !evidenceOpened && !evidencePreserved
          && state == Rejected && !sinkFailed)
      && (uses != NO_USES ==> request.Valid())
      && uses.evidence == evidenceAttempts && uses.close == Bit(rootCloseAttempted) + Bit(evidenceCloseAttempted)
      && (failure == BudgetFailure ==> !request.Generous())
      && seam.creations == Bit(createAttempted) && (createAttempted ==> 0 < seam.kept) && seam.kept <= evidenceAttempts
      && (created ==> createAttempted) && (rootClosed ==> rootCloseAttempted)
      && (evidenceClosed ==> evidenceCloseAttempted)
      && (evidencePreserved ==> Done() && seam.kept == 2)
      && (rootCloseAttempted || evidenceCloseAttempted ==> evidencePreserved)
    }

    /** Everything but the closing was reserved. */
    ghost predicate Done()
      reads `uses
    {
      uses.(close := 0) == Complete(request.parents, request.artifacts).(close := 0)
    }

    method Fail(f: Failure, uncertain: bool)
      requires Valid() && attempted && (f == BudgetFailure ==> !request.Generous())
      modifies this`stopped, this`failure, this`state
      ensures Valid() && (failure == NoFailure ==> f == NoFailure)
          && (old(failure) != NoFailure ==> failure == old(failure))
      ensures old(failure) == NoFailure ==> failure == f
      ensures stopped
      ensures state == if uncertain || created || old(state) == Uncertain then Uncertain else Rejected
    {
      hide Afforded, Within, Complete, Request.Valid, Request.Generous;
      stopped := true;
      if failure == NoFailure { failure := f; }
      state := if uncertain || created || state == Uncertain then Uncertain else Rejected;
    }

    /** Reserves a step in every counter, or in none. */
    method Reserve(s: Step) returns (ok: bool)
      requires Valid() && attempted && request.Valid()
          && Within(Bump(uses, s), Complete(request.parents, request.artifacts))
      requires s == EvidenceStep || s == CloseStep || !evidencePreserved
      modifies this`stopped, this`failure, this`state, this`reserved, this`uses
      ensures request.Generous() ==> ok
      ensures ok ==>
          uses == Bump(old(uses), s) && Afforded() && state == old(state) && failure == old(failure)
          && stopped == old(stopped)
      ensures !ok ==> Valid() && uses == old(uses) && stopped && (state == Rejected || state == Uncertain)
    {
      hide Spent, Ceiling, Complete, Cost, Request.Generous;
      var e, was := request.evidenceParents, reserved;
      ok := true;
      for i := 0 to |COUNTERS|
        invariant ok && Valid() && reserved == was && uses == old(uses) && state == old(state)
            && failure == old(failure)
        invariant stopped == old(stopped)
        invariant forall j | 0 <= j < i :: was(COUNTERS[j]) + Cost(s, e, COUNTERS[j]) <= request.budget(COUNTERS[j])
      {
        var c := COUNTERS[i];
        Difference(c);
        if Cost(s, e, c) > Minus(request.budget(c), was(c)) {
          if request.Generous() { RoomFor(s, c); }
          Fail(BudgetFailure, false);
          return false;
        }
      }
      forall c ensures was(c) + Cost(s, e, c) <= request.budget(c)
          && was(c) + Cost(s, e, c) == Spent(Bump(uses, s), e, c) {
        EveryCounter(c);
        SpentMore(uses, s, e, c);
      }
      reserved, uses := c => was(c) + Cost(s, e, c), Bump(uses, s);
    }

    /** The unsigned difference never wraps. */
    lemma Difference(c: Counter)
      requires Valid() && request.Valid()
      ensures Minus(request.budget(c), reserved(c)) == request.budget(c) - reserved(c)
          && reserved(c) <= request.budget(c)
    {
      hide Spent, Ceiling, Complete, Cost, Within;
      CeilingIsPositive(request.parents, request.artifacts, request.evidenceParents, c);
    }

    /** Under the whole ceiling there is room for every step there is. */
    lemma RoomFor(s: Step, c: Counter)
      requires Valid() && request.Valid() && request.Generous()
          && Within(Bump(uses, s), Complete(request.parents, request.artifacts))
      ensures reserved(c) + Cost(s, request.evidenceParents, c) <= request.budget(c)
    {
      hide Spent, Ceiling, Complete, Cost, Within;
      SpentMore(uses, s, request.evidenceParents, c);
      SpentMonotone(Bump(uses, s), Complete(request.parents, request.artifacts), request.evidenceParents, c);
      CeilingIsExact(request.parents, request.artifacts, request.evidenceParents, c);
    }

    /** Reserves a step that is neither a record nor a close. */
    method Take(s: Step) returns (ok: bool)
      requires Valid() && attempted && request.Valid()
          && Within(Bump(uses, s), Complete(request.parents, request.artifacts))
      requires s != EvidenceStep && s != CloseStep && !evidencePreserved && !rootCloseAttempted
          && !evidenceCloseAttempted
      modifies this`stopped, this`failure, this`state, this`reserved, this`uses
      ensures Valid() && (ok ==> uses == Bump(old(uses), s) && state == old(state))
      ensures !ok ==> uses == old(uses) && state != Pinned
    {
      hide Afforded, Request.Valid, Request.Generous;
      ok := Reserve(s);
    }

    /** Looks at every parent: still the one that was approved? */
    method Parents() returns (a: Answer)
      requires Valid() && attempted && request.Valid() && !evidencePreserved && !rootCloseAttempted
          && !evidenceCloseAttempted
      requires uses.parent + request.parents <= 4 * request.parents
      modifies this`stopped, this`failure, this`state, this`reserved, this`uses
      ensures Valid() && uses == old(uses).(parent := uses.parent) && uses.parent <= old(uses).parent + request.parents
      ensures a == Yes ==> uses.parent == old(uses).parent + request.parents && state == old(state)
      ensures a == No ==> state != Pinned
      ensures a == Threw ==> state == old(state)
    {
      hide Afforded, Request.Valid, Request.Generous;
      a := Yes;
      for i := 0 to request.parents
        invariant Valid() && uses == old(uses).(parent := old(uses).parent + i) && state == old(state) && a == Yes
      {
        var ok := Take(ParentStep);
        if !ok { return No; }
        a := seam.Ask();
        if a == No { Fail(ParentFailure, false); }
        if a != Yes { return; }
      }
    }

    method Root() returns (a: Answer)
      requires Valid() && attempted && request.Valid() && !evidencePreserved && !rootCloseAttempted
          && !evidenceCloseAttempted
      requires uses.root < 2
      modifies this`stopped, this`failure, this`state, this`reserved, this`uses
      ensures Valid() && uses == old(uses).(root := uses.root) && uses.root <= old(uses).root + 1
      ensures a == Yes ==> uses.root == old(uses).root + 1 && state == old(state)
      ensures a == No ==> state != Pinned
      ensures a == Threw ==> state == old(state)
    {
      hide Afforded, Request.Valid, Request.Generous;
      var ok := Take(RootStep);
      if !ok { return No; }
      a := seam.Ask();
      if a == No { Fail(RootFailure, false); }
    }

    /** Hands one record to the sink; whatever is not a full acknowledgement closes it. */
    method Save() returns (a: Answer)
      requires Valid() && attempted && request.Valid() && evidenceAttempts < 2 && !evidencePreserved
      requires !rootCloseAttempted && !evidenceCloseAttempted
      modifies this`stopped, this`failure, this`state, this`reserved, this`uses, this`evidenceAttempts,
          this`sinkFailed, seam`kept
      ensures Valid() && uses == old(uses).(evidence := uses.evidence) && evidenceAttempts <= old(evidenceAttempts) + 1
      ensures a == Yes ==>
          evidenceAttempts == old(evidenceAttempts) + 1 && seam.kept == old(seam.kept) + 1
          && state == old(state) && !sinkFailed
      ensures seam.kept >= old(seam.kept) && (a == Threw ==> sinkFailed)
      ensures old(sinkFailed) ==> a == No && sinkFailed
    {
      hide Afforded, Request.Valid, Request.Generous;
      if sinkFailed || !evidenceOpened { return No; }
      var ok := Reserve(EvidenceStep);
      if !ok { return No; }
      evidenceAttempts, sinkFailed := evidenceAttempts + 1, true;
      a := seam.Preserve();
      if a == No { Fail(EvidenceFailure, true); }
      if a != Yes { return; }
      sinkFailed := false;
    }

    /** A failure is recorded once, if the sink still takes records. */
    method FinishFailure() returns (threw: bool)
      requires Valid() && attempted && !evidencePreserved && !rootCloseAttempted && !evidenceCloseAttempted
      requires evidenceOpened ==> request.Valid()
      modifies this`stopped, this`failure, this`state, this`reserved, this`uses, this`evidenceAttempts,
          this`sinkFailed, seam`kept
      ensures Valid() && (threw ==> sinkFailed) && (old(sinkFailed) ==> !threw)
    {
      hide Afforded, Request.Valid, Request.Generous;
      threw := false;
      if evidenceOpened && !sinkFailed && evidenceAttempts < 2 {
        var a := Save();
        threw := a == Threw;
      }
    }

    /** The whole preparation. It says yes only for a pinned root with both records kept;
        an exception is one more failure. */
    method Run() returns (ok: bool)
      requires Valid()
      modifies this, seam
      ensures Valid() && attempted
      ensures ok ==> !old(attempted) && state == Pinned && evidencePreserved && created && handoffAcknowledged
      ensures old(attempted) ==> !ok && unchanged(this) && unchanged(seam)
    {
      hide Afforded, Request.Valid, Request.Generous;
      ok := false;
      if attempted { return; }
      attempted := true;
      var gate := seam.Ask();
      if gate != Yes {
        Fail(Gate, false);
        return;
      }
      var sound := CheckRequest();
      if !sound {
        Fail(TargetFailure, false);
        return;
      }
      var a := Work();
      if a == Yes { return true; }
      var threw := a == Threw;
      if a == No { threw := FinishFailure(); }
      if threw {
        Fail(EvidenceFailure, true);
        threw := FinishFailure();
      }
    }

    /** Is the request in order, its budget nowhere zero and nowhere above the ceiling? */
    method CheckRequest() returns (ok: bool)
      ensures ok <==> request.Valid()
    {
      var e := request.evidenceParents;
      ok := request.sound && 0 < request.parents <= MAX_PARENTS && 0 < request.artifacts <= MAX_PINS
          && 2 <= e <= MAX_PARENTS;
      hide Ceiling;
      for i := 0 to |COUNTERS|
        invariant ok ==>
            request.sound && 0 < request.parents <= MAX_PARENTS && 0 < request.artifacts <= MAX_PINS
            && 2 <= e <= MAX_PARENTS
        invariant ok ==> forall j | 0 <= j < i :: 0 < request.budget(COUNTERS[j]) <= request.Ceil(COUNTERS[j])
        invariant request.Valid() ==> ok
      {
        var c := COUNTERS[i];
        if request.budget(c) == 0 || request.budget(c) > request.Ceil(c) { ok := false; }
      }
      if ok {
        forall c ensures 0 < request.budget(c) <= request.Ceil(c) { EveryCounter(c); }
      }
    }

    method Work() returns (a: Answer)
      requires Valid() && attempted && request.Valid() && uses == NO_USES && !evidencePreserved && !evidenceOpened
          && failure == NoFailure
      requires !createAttempted && !created && !rootCloseAttempted && !evidenceCloseAttempted && evidenceAttempts == 0
          && seam.kept == 0
      requires !sinkFailed && state == Rejected
      modifies this, seam
      ensures Valid() && attempted && !rootCloseAttempted && !evidenceCloseAttempted
          && (a != Yes ==> !evidencePreserved)
      ensures a == Yes ==> state == Pinned && evidencePreserved && created && handoffAcknowledged
    {
      hide Afforded, Request.Valid, Request.Generous;
      a := Observe();
      if a != Yes { return; }
      a := Create();
      if a != Yes { return; }
      a := HandOff();
    }

    /** Identity, parents and artifacts, and the evidence file. */
    method Observe() returns (a: Answer)
      requires Valid() && attempted && request.Valid() && uses == NO_USES && !evidencePreserved && !evidenceOpened
          && !created
      requires !rootCloseAttempted && !evidenceCloseAttempted && state == Rejected
      modifies this`stopped, this`failure, this`state, this`reserved, this`uses, this`evidenceOpened
      ensures Valid()
      ensures a == Yes ==>
          evidenceOpened && state == Rejected
          && uses == Uses(1, request.parents, request.artifacts, 0, 0, 1, 0, 0)
    {
      hide Afforded, Request.Valid, Request.Generous;
      var ok := Take(IdentityStep);
      if !ok { return No; }
      a := seam.Ask();
      if a == No { Fail(IdentityFailure, true); }
      if a != Yes { return; }
      a := Parents();
      if a != Yes { return; }
      for i := 0 to request.artifacts
        invariant Valid() && a == Yes && state == Rejected && uses == Uses(1, request.parents, i, 0, 0, 0, 0, 0)
            && !evidenceOpened
      {
        ok := Take(ArtifactStep);
        if !ok { return No; }
        a := seam.Ask();
        if a == No { Fail(ArtifactFailure, false); }
        if a != Yes { return; }
      }
      ok := Take(OpenStep);
      if !ok { return No; }
      a := seam.Ask();
      if a == No { Fail(EvidenceFailure, true); }
      if a != Yes { return; }
      evidenceOpened := true;
    }

    /** The intent on record, the parents once more, and then the one creation. */
    method Create() returns (a: Answer)
      requires Valid() && attempted && request.Valid()
          && uses == Uses(1, request.parents, request.artifacts, 0, 0, 1, 0, 0)
      requires !evidencePreserved && evidenceOpened && !createAttempted && !created && !rootCloseAttempted
          && !evidenceCloseAttempted
      requires state == Rejected && !sinkFailed && seam.kept == 0
      modifies this`stopped, this`failure, this`state, this`reserved, this`uses, this`evidenceAttempts, this`sinkFailed,
        this`createAttempted, this`created, seam
      ensures Valid() && (seam.creations > old(seam.creations) ==> seam.kept > 0)
      ensures a == Yes ==> created && !sinkFailed && seam.kept == 1 && evidenceAttempts == 1
                           && uses == Uses(1, 2 * request.parents, request.artifacts, 1, 0, 1, 1, 0)
    {
      hide Afforded, Request.Valid, Request.Generous;
      a := Save();
      if a != Yes { return; }
      a := Parents();
      if a != Yes { return; }
      var ok := Take(CreateStep);
      if !ok { return No; }
      createAttempted := true;
      var threw, c := seam.CreateRoot();
      if threw { return Threw; }
      if c != Created {
        Fail(CreationFailure, c == CreationUnknown);
        return No;
      }
      created := true;
    }

    /** The root and every parent, twice. */
    method Recheck() returns (a: Answer)
      requires Valid() && attempted && request.Valid() && uses.root == 0 && uses.parent == 2 * request.parents
      requires !evidencePreserved && !rootCloseAttempted && !evidenceCloseAttempted
      modifies this`stopped, this`failure, this`state, this`reserved, this`uses
      ensures Valid() && uses == old(uses).(root := uses.root, parent := uses.parent)
      ensures a == Yes ==> uses.root == 2 && uses.parent == 4 * request.parents && state == old(state)
    {
      hide Afforded, Request.Valid, Request.Generous;
      a := Root();
      if a != Yes { return; }
      a := Parents();
      if a != Yes { return; }
      a := Root();
      if a != Yes { return; }
      a := Parents();
    }

    /** The root and its parents twice more, the handoff, and the final record. */
    method HandOff() returns (a: Answer)
      requires Valid() && attempted && request.Valid()
          && uses == Uses(1, 2 * request.parents, request.artifacts, 1, 0, 1, 1, 0)
      requires !evidencePreserved && evidenceOpened && created && !rootCloseAttempted && !evidenceCloseAttempted
          && !sinkFailed
      requires seam.kept == 1 && evidenceAttempts == 1
      modifies this`stopped, this`failure, this`state, this`reserved, this`uses, this`evidenceAttempts, this`sinkFailed,
        this`handoffAttempted, this`handoffAcknowledged, this`evidencePreserved, seam`kept
      ensures Valid() && (a != Yes ==> !evidencePreserved)
      ensures a == Yes ==> evidencePreserved && handoffAcknowledged && state == Pinned
    {
      hide Afforded, Request.Valid, Request.Generous;
      a := Recheck();
      if a != Yes { return; }
      handoffAttempted := true;
      a := seam.Ask();
      if a == No { Fail(HandoffFailure, true); }
      if a != Yes { return; }
      handoffAcknowledged, state := true, Pinned;
      a := Save();
      if a != Yes { return; }
      evidencePreserved := true;
    }

    /** Closes the root, once, for its owner and only after a complete preparation. */
    method CloseRootOnce(owner: bool) returns (ok: bool)
      requires Valid()
      modifies this`stopped, this`failure, this`state, this`reserved, this`uses, this`rootCloseAttempted,
          this`rootClosed
      ensures Valid() && attempted == old(attempted)
          && (ok ==> !old(rootCloseAttempted) && rootClosed && old(state) == Pinned)
    {
      hide Afforded, Request.Valid, Request.Generous;
      if state != Pinned || !evidencePreserved || !owner || rootCloseAttempted { return false; }
      ok := Reserve(CloseStep);
      if !ok { return; }
      rootCloseAttempted := true;
      var a := seam.Ask();
      rootClosed := a == Yes;
      ok := rootClosed;
      if !ok { Fail(CloseFailure, true); }
    }

    method CloseEvidenceOnce(owner: bool) returns (ok: bool)
      requires Valid()
      modifies this`stopped, this`failure, this`state, this`reserved, this`uses, this`evidenceCloseAttempted,
          this`evidenceClosed
      ensures Valid() && attempted == old(attempted)
          && (ok ==> !old(evidenceCloseAttempted) && evidenceClosed && old(state) == Pinned)
    {
      hide Afforded, Request.Valid, Request.Generous;
      if state != Pinned || !evidencePreserved || !owner || evidenceCloseAttempted { return false; }
      ok := Reserve(CloseStep);
      if !ok { return; }
      evidenceCloseAttempted := true;
      var a := seam.Ask();
      evidenceClosed := a == Yes;
      ok := evidenceClosed;
      if !ok { Fail(CloseFailure, true); }
    }
  }

  /** A complete preparation with both closes has reserved exactly the ceiling, which the
      budget then must have been. */
  lemma CompleteIsExact(p: Preparation, c: Counter)
    requires p.Valid() && p.rootCloseAttempted && p.evidenceCloseAttempted
    ensures p.reserved(c) == p.request.Ceil(c) == p.request.budget(c)
  {
    hide Spent, Ceiling, Cost;
    assert p.uses == Complete(p.request.parents, p.request.artifacts);
    CeilingIsExact(p.request.parents, p.request.artifacts, p.request.evidenceParents, c);
    CeilingIsPositive(p.request.parents, p.request.artifacts, p.request.evidenceParents, c);
  }

  /** Runs and closes in any order and number: nothing is ever reserved beyond the budget,
      one root at most is asked for and only with a record kept before, and with the whole
      ceiling as budget no failure is one of budget. */
  method Lifetime(p: Preparation)
    requires p.Valid()
    modifies p, p.seam
    ensures p.Valid() && (p.request.Generous() ==> p.failure != BudgetFailure)
    ensures p.seam.creations <= 1 && (p.seam.creations == 1 ==> p.seam.kept > 0)
    ensures forall c :: p.reserved(c) <= p.request.budget(c)
    ensures p.rootCloseAttempted && p.evidenceCloseAttempted ==>
      forall c :: p.reserved(c) == p.request.Ceil(c) == p.request.budget(c)
  {
    hide Spent, Ceiling, Cost, Within;
    var steps: int := *;
    for i := 0 to if steps < 0 then 0 else steps
      invariant p.Valid()
    {
      var choice: int := *;
      var owner: bool := *;
      var ok;
      if choice == 0 { ok := p.Run(); } else if choice == 1 { ok := p.CloseRootOnce(owner); }
          else { ok := p.CloseEvidenceOnce(owner); }
    }
    if p.rootCloseAttempted && p.evidenceCloseAttempted {
      forall c ensures p.reserved(c) == p.request.Ceil(c) == p.request.budget(c) { CompleteIsExact(p, c); }
    }
  }
}