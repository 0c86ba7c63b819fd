/** The custodian: it owns the worker's handles, never hands them out, and writes down
    every step it takes before it takes it. Any refused, late or unknown step leaves it in
    the unknown state; only a complete settlement releases custody. */
module Custodians {
  import opened WireBytes
  import opened Settlements
  import opened PermissionLog
  import opened GrantFlows
  import opened CustodianLog

  datatype Limits = Limits(custodianImage: string, channel: string, process: seq<ResourceLimit>, polls: U32,
                           pollMs: U32, uiEvents: U32,
                           approvalMs: U64, handoffMs: U64)
  {
    predicate Valid() {
      && HexDigest(custodianImage, 64) && HexDigest(channel, 64) && 0 < polls <= 512 && 0 < pollMs <= 50
      && 0 < uiEvents <= 128
      && 0 < approvalMs <= 60000 && 0 < handoffMs <= 30000
      && |process| == 3 && forall i | 0 <= i < 3 :: process[i].Valid()
    }
  }

  datatype Receipt = Receipt(ok: bool, independent: bool, target: Digest, owner: string, ownsHandles: bool,
      identity: Option<Digest>)

  const NO_SAMPLE := ResourceSample(0, 0, 0, 0, 0)

  datatype Entry = Entry(number: nat, state: State, previous: Option<Digest>, process: Option<Digest>)

  // ----- the seam

  /** The owner of the worker, the proof of the grant, and the medium the journal is
      written to. Every call may answer anything or throw. */
  class CustodySeam {
    const charge: Charge
    ghost var log: seq<Act>

    constructor (charge: Charge)
      ensures this.charge == charge && log == []
    {
      this.charge, log := charge, [];
    }

    ghost method Add(a: Act)
      requires Careful(log, charge) && Permitted(log, a, charge)
      modifies this
      ensures Careful(log, charge) && Added(charge, old(log), log, a)
    {
      CarefulMore(log, a, charge);
      CustodyClockMore(log, a, charge);
      forall k { CountMore(log, a, k); }
      log := log + [a];
    }

    method MeasureHosts() returns (threw: bool, matching: bool)
    {
      threw, matching := *, *;
    }

    method AcceptIntent(f: Frozen) returns (threw: bool, r: Receipt)
      requires Careful(log, charge) && Permitted(log, AcceptedIntent(true), charge)
      modifies this
      ensures Careful(log, charge)
      ensures Added(charge, old(log), log, AcceptedIntent(!threw && r.ok && r.independent && r.target == f.digest
          && r.owner == f.owner))
    {
      threw, r := *, *;
      Add(AcceptedIntent(!threw && r.ok && r.independent && r.target == f.digest && r.owner == f.owner));
    }

    method ReadClock() returns (threw: bool, r: Reading)
      requires Careful(log, charge)
      modifies this
      ensures Careful(log, charge)
      ensures if threw then log == old(log) else Added(charge, old(log), log, ClockRead(r))
    {
      threw, r := *, *;
      if !threw { Add(ClockRead(r)); }
    }

    method ReadProof() returns (threw: bool, ok: bool, c: Consumption)
      requires Careful(log, charge)
      modifies this
      ensures Careful(log, charge)
      ensures if threw then log == old(log) else Added(charge, old(log), log, ProofRead(ok, c))
    {
      threw, ok, c := *, *, *;
      if !threw { Add(ProofRead(ok, c)); }
    }

    /** A reading that was not taken any more is passed on as an invalid one. */
    ghost method NoReading()
      requires Careful(log, charge)
      modifies this
      ensures Careful(log, charge) && Added(charge, old(log), log, ClockRead(NO_READING))
    {
      Add(ClockRead(NO_READING));
    }

    method Create() returns (threw: bool, created: bool, pid: U32)
      requires Careful(log, charge) && Permitted(log, CreatedWorker(true, 0), charge)
      modifies this
      ensures Careful(log, charge) && Added(charge, old(log), log, CreatedWorker(!threw && created && pid != 0, pid))
    {
      threw, created, pid := *, *, *;
      Add(CreatedWorker(!threw && created && pid != 0, pid));
    }

    method ProcessIdentity() returns (threw: bool, p: Identity)
      requires Careful(log, charge)
      modifies this
      ensures Careful(log, charge)
      ensures if threw then log == old(log) else Added(charge, old(log), log, Named(p))
    {
      threw, p := *, *;
      if !threw { Add(Named(p)); }
    }

    method Acknowledge(hash: Option<Digest>) returns (threw: bool, r: Receipt)
      requires Careful(log, charge) && Permitted(log, AckedIdentity(true), charge)
      modifies this
      ensures Careful(log, charge) && Added(charge, old(log), log,
          AckedIdentity(!threw && r.ok && r.ownsHandles && r.identity == hash))
    {
      threw, r := *, *;
      Add(AckedIdentity(!threw && r.ok && r.ownsHandles && r.identity == hash));
    }

    method Ask(c: Check) returns (threw: bool, ok: bool)
      requires Careful(log, charge) && Permitted(log, Checked(c, true), charge)
      modifies this
      ensures Careful(log, charge) && Added(charge, old(log), log, Checked(c, ok)) && (threw ==> !ok)
    {
      threw, ok := *, *;
      ok := ok && !threw;
      Add(Checked(c, ok));
    }

    method Resume() returns (threw: bool, ok: bool, known: bool)
      requires Careful(log, charge) && Permitted(log, ResumedWorker(true, true), charge)
      modifies this
      ensures Careful(log, charge) && Added(charge, old(log), log, ResumedWorker(known, ok)) && (threw ==> !ok)
    {
      threw, ok, known := *, *, *;
      ok := ok && !threw;
      Add(ResumedWorker(known, ok));
    }

    method Observe() returns (threw: bool, healthy: bool, exited: bool)
      requires Careful(log, charge) && Permitted(log, ObservedWorker(true, true), charge)
      modifies this
      ensures Careful(log, charge) && Added(charge, old(log), log, ObservedWorker(!threw && healthy, exited))
    {
      threw, healthy, exited := *, *, *;
      Add(ObservedWorker(!threw && healthy, exited));
    }

    /** A sample of the three processes. */
    method SampleThree() returns (threw: bool, ok: bool, s: seq<ResourceSample>)
      ensures |s| == 3
    {
      var a, b, c := *, *, *;
      threw, ok, s := *, *, [a, b, c];
    }

    method Next() returns (threw: bool, ok: bool)
      requires Careful(log, charge) && Permitted(log, PolledWorker, charge)
      modifies this
      ensures Careful(log, charge) && Added(charge, old(log), log, PolledWorker)
    {
      threw, ok := *, *;
      Add(PolledWorker);
    }

    method SendOut() returns (threw: bool, ok: bool)
      requires Careful(log, charge) && Permitted(log, SentFrame, charge)
      modifies this
      ensures Careful(log, charge) && Added(charge, old(log), log, SentFrame)
    {
      threw, ok := *, *;
      Add(SentFrame);
    }

    method CloseExit() returns (threw: bool, ok: bool)
      requires Careful(log, charge) && Permitted(log, ClosedExit(true), charge)
      modifies this
      ensures Careful(log, charge) && Added(charge, old(log), log, ClosedExit(ok)) && (threw ==> !ok)
    {
      threw, ok := *, *;
      ok := ok && !threw;
      Add(ClosedExit(ok));
    }

    method CloseIo() returns (threw: bool, ok: bool)
      requires Careful(log, charge) && Permitted(log, ClosedIo(true), charge)
      modifies this
      ensures Careful(log, charge) && Added(charge, old(log), log, ClosedIo(ok)) && (threw ==> !ok)
    {
      threw, ok := *, *;
      ok := ok && !threw;
      Add(ClosedIo(ok));
    }

    /** Keeps the original ownership; cleans nothing up. */
    method ControllerLost()
      requires Careful(log, charge)
      modifies this
      ensures Careful(log, charge) && Added(charge, old(log), log, LossNoted)
    {
      Add(LossNoted);
    }

    /** One inspection, one write, one flush, one inspection. */
    method Transfer(state: State) returns (threw: bool, ok: bool)
      requires Careful(log, charge) && Permitted(log, Recorded(state, true), charge)
      modifies this
      ensures Careful(log, charge) && Added(charge, old(log), log, Recorded(state, ok)) && (threw ==> !ok)
    {
      threw, ok := *, *;
      ok := ok && !threw;
      Add(Recorded(state, ok));
    }
  }

  /** b is a and one more act. */
  ghost predicate Added(charge: Charge, a: seq<Act>, b: seq<Act>, x: Act) {
    && b == a + [x] && CustodyClock(b, charge) == Shown(CustodyClock(a, charge), x, charge)
    && forall k :: Count(b, k) == Count(a, k) + if KindOf(x) == k then 1 else 0
  }

  // ----- the journal

  /** Each record carries its number and the hash of the one before. */
  ghost predicate Chained(entries: seq<Entry>, hash: Entry -> Digest) {
    forall i | 0 <= i < |entries| :: entries[i].number == i + 1 && entries[i].previous == Latest(entries[..i], hash)
  }

  ghost function Latest(entries: seq<Entry>, hash: Entry -> Digest): Option<Digest> {
    if entries == [] then None else Some(hash(entries[|entries| - 1]))
  }

  lemma ChainedMore(entries: seq<Entry>, e: Entry, hash: Entry -> Digest)
    requires Chained(entries, hash) && e.number == |entries| + 1 && e.previous == Latest(entries, hash)
    ensures Chained(entries + [e], hash) && Latest(entries + [e], hash) == Some(hash(e))
  {
    hide Latest;
    var more := entries + [e];
    forall i | 0 <= i < |more| ensures more[i].number == i + 1 && more[i].previous == Latest(more[..i], hash) {
      assert more[..i] == if i < |entries| then entries[..i] else entries;
    }
    LatestMore(entries, e, hash);
  }

  lemma LatestMore(entries: seq<Entry>, e: Entry, hash: Entry -> Digest)
    ensures Latest(entries + [e], hash) == Some(hash(e))
  {
  }

  /** The states on record: one after the other from ready, and unknown only at the end. */
  ghost predicate InOrder(entries: seq<Entry>) {
    forall i | 0 <= i < |entries| ::
      Rank(entries[i].state) == i + 1 || (entries[i].state == UnknownState && i == |entries| - 1)
  }

  ghost predicate Open(entries: seq<Entry>) {
    forall i | 0 <= i < |entries| :: entries[i].state != UnknownState
  }

  lemma InOrderMore(entries: seq<Entry>, e: Entry)
    requires InOrder(entries) && Open(entries) && (Rank(e.state) == |entries| + 1 || e.state == UnknownState)
    ensures InOrder(entries + [e]) && (e.state != UnknownState ==> Open(entries + [e]))
  {
  }

  class CustodyJournal {
    const world: CustodySeam
    const batch: string
    const target: string
    const owner: string
    const hash: Entry -> Digest
    var previous: Option<Digest>
    var count: nat
    var failed: bool
    ghost var entries: seq<Entry>

    constructor (world: CustodySeam, batch: string, target: string, owner: string, hash: Entry -> Digest)
      ensures Valid() && this.world == world && count == 0 && !failed && entries == []
    {
      this.world, this.batch, this.target, this.owner, this.hash := world, batch, target, owner, hash;
      previous, count, failed, entries := None, 0, false, [];
    }

    ghost predicate Valid()
      reads this
    {
      && Chained(entries, hash) && |entries| <= count <= |entries| + 1 && (!failed ==> count == |entries|)
      && (!failed ==> previous == Latest(entries, hash))
    }

    /** One attempt per record. Whatever does not end well closes the journal for good. */
    method Append(state: State, process: Option<Digest>) returns (threw: bool, ok: bool)
      requires Valid() && Careful(world.log, world.charge) && Permitted(world.log, Recorded(state, true), world.charge)
      modifies this, world
      ensures Valid() && Careful(world.log, world.charge)
      ensures (ok <==> !failed) && (threw ==> !ok) && Quiet(old(world.log), world.log)
      ensures old(failed) ==> count == old(count) && entries == old(entries) && !threw
      ensures !old(failed) ==> count == old(count) + 1
      ensures old(failed) || old(count) >= 16 ==> !ok && world.log == old(world.log)
      ensures world.log == old(world.log) || world.log == old(world.log) + [Recorded(state, ok)]
      ensures ok ==> Recorded(state, true) in world.log
      ensures CustodyClock(world.log, world.charge) == CustodyClock(old(world.log), world.charge)
      ensures if world.log == old(world.log) then entries == old(entries)
              else entries == old(entries) + [Entry(count, state, old(previous), process)]
    {
      hide Found, InTimeFor, CustodyClock, Careful, Permitted, Count, SafeId, HexDigest, Chained;
      threw, ok := false, false;
      if failed { return; }
      failed, count := true, count + 1;
      if count > 16 || !SafeId(batch) || !SafeId(owner) || !HexDigest(target, 64) { return; }
      var entry := Entry(count, state, previous, process);
      ChainedMore(entries, entry, hash);
      threw, ok := world.Transfer(state);
      entries := entries + [entry];
      if !ok { return; }
      previous, failed := Some(hash(entry)), false;
    }
  }

  // ----- the custodian

  function Max(a: nat, b: nat): nat { if a < b then b else a }

  function AtMost(n: nat, cap: nat): nat { if n < cap then n else cap }

  /** The launch that was proved, and the process that was found. */
  datatype Facts = Facts(launch: Reading, identity: Identity)

  /** What a state says about the past. */
  ghost predicate Remembered(s: State, exited: bool, f: Facts, log: seq<Act>) {
    && (s != UnknownState ==>
          && (forall t: State | 1 <= Rank(t) <= Rank(s) :: Recorded(t, true) in log)
          && (Rank(s) >= 3 ==> Proved(f.launch) in log)
          && (Rank(s) >= 6 ==> Found(log, f.identity))
          && (Rank(s) >= 7 ==> AckedIdentity(true) in log)
          && (Rank(s) >= 10 ==> ClosedExit(true) in log))
    && (exited ==> ObservedWorker(true, true) in log)
  }

  /** The counters, and the acts they stand for. */
  datatype Tally = Tally(accepted: bool, attempted: bool, resumeAttempted: bool, closed: bool, ioClosed: bool,
                         token: nat, image: nat, handles: nat, hello: nat, deps: nat, sends: nat)

  /** How often kind k was done, as far as the counters say. */
  predicate Within(c: Tally, k: Kind, n: nat)
  {
    match k
    case Acceptance => n <= Bit(c.accepted)
    case Creation => n <= Bit(c.attempted)
    case Resumption => n <= Bit(c.resumeAttempted)
    case ExitClose => n <= Bit(c.closed)
    case IoClose => n <= Bit(c.ioClosed)
    case Sending => n == AtMost(c.sends, 3)
    case Question(TokenCheck) => n == AtMost(c.token, 1)
    case Question(ImageCheck) => n == AtMost(c.image, 1)
    case Question(HandlesCheck) => n == AtMost(c.handles, 1)
    case Question(HelloCheck) => n == AtMost(c.hello, 1)
    case Question(DependenciesCheck) => n == AtMost(c.deps, 2)
    case _ => true
  }

  ghost predicate Tallied(c: Tally, log: seq<Act>) {
    forall k: Kind :: Within(c, k, Count(log, k))
  }

  /** Entering the state that was just written down. */
  lemma RememberedNext(s: State, t: State, exited: bool, f: Facts, log: seq<Act>)
    requires Remembered(s, exited, f, log) && s != UnknownState && t != UnknownState && Rank(t) == Rank(s) + 1
    requires Recorded(t, true) in log
    requires Rank(t) == 3 ==> Proved(f.launch) in log
    requires Rank(t) == 6 ==> Found(log, f.identity)
    requires Rank(t) == 7 ==> AckedIdentity(true) in log
    requires Rank(t) == 10 ==> ClosedExit(true) in log
    ensures Remembered(t, exited, f, log)
  {
    forall u: State | 1 <= Rank(u) <= Rank(t) ensures Recorded(u, true) in log {
      if Rank(u) == Rank(t) { assert u == t; }
    }
  }

  lemma RememberedBefore(s: State, t: State, exited: bool, f: Facts, log: seq<Act>)
    requires Remembered(s, exited, f, log) && s != UnknownState && Rank(t) == Rank(s) + 1
    ensures Preceded(log, t)
  {
  }

  lemma QuietKeeps(a: seq<Act>, b: seq<Act>, s: State, exited: bool, f: Facts, c: Tally)
    requires Quiet(a, b) || a == b
    ensures Quiet(a, b) && Upholds(a, b)
    ensures Remembered(s, exited, f, a) ==>
        Remembered(s, exited, f, b)
        && Remembered(UnknownState, exited, f, b)
    ensures Tallied(c, a) ==> Tallied(c, b)
  {
    hide Count, Passed, Guarded, CustodyClock, FitsCharge, Stated;
    PlainKeeps(a, b);
    forall k: Kind | k != Note { QuietCounts(a, b, k); }
  }

  lemma QuietNothing(a: seq<Act>)
    ensures Quiet(a, a) && Upholds(a, a)
  {
  }

  lemma PermittedNote(log: seq<Act>, s: State, charge: Charge)
    requires s == UnknownState || (Truthful(log, s, charge) && Preceded(log, s))
    ensures Permitted(log, Recorded(s, true), charge)
  {
  }

  /** The launch is remembered only once the grant is consumed. */
  lemma LaunchIsFree(s: State, exited: bool, f: Facts, other: Reading, log: seq<Act>)
    requires Remembered(s, exited, f, log) && (s == UnknownState || Rank(s) < 3)
    ensures Remembered(s, exited, f.(launch := other), log)
  {
  }

  lemma IdentityIsFree(s: State, exited: bool, f: Facts, other: Identity, log: seq<Act>)
    requires Remembered(s, exited, f, log) && (s == UnknownState || Rank(s) < 6)
    ensures Remembered(s, exited, f.(identity := other), log)
  {
  }

  lemma ExitSeen(s: State, exited: bool, f: Facts, log: seq<Act>)
    requires Remembered(s, exited, f, log) && ObservedWorker(true, true) in log
    ensures Remembered(s, true, f, log)
  {
  }

  lemma NotYet(c: Tally, log: seq<Act>)
    requires Tallied(c, log)
    ensures !c.attempted ==> Count(log, Creation) == 0
    ensures !c.resumeAttempted ==> Count(log, Resumption) == 0
  {
    hide Count;
    assert Within(c, Creation, Count(log, Creation)) && Within(c, Resumption, Count(log, Resumption));
  }

  lemma MayAttempt(c: Tally, d: Tally, log: seq<Act>)
    requires Tallied(c, log) && d in {c.(attempted := true), c.(resumeAttempted := true)}
    ensures Tallied(d, log)
  {
    hide Count;
    forall k: Kind ensures Within(d, k, Count(log, k)) { assert Within(c, k, Count(log, k)); }
  }

  lemma CallAgain(calls: seq<nat>, i: nat, c: Tally, log: seq<Act>)
    requires |calls| == 5 && i < 5 && calls[i] != 0 && Tallied(c, log)
    requires c.token == calls[0] && c.image == calls[1] && c.handles == calls[2] && c.hello == calls[3]
    ensures var d := calls[i := calls[i] + 1];
            Tallied(c.(token := d[0], image := d[1], handles := d[2], hello := d[3]), log)
  {
    hide Count;
    var d := calls[i := calls[i] + 1];
    forall k: Kind ensures Within(c.(token := d[0], image := d[1], handles := d[2], hello := d[3]), k, Count(log, k)) {
      assert Within(c, k, Count(log, k));
    }
  }

  lemma AskAgain(c: Tally, log: seq<Act>)
    requires Tallied(c, log)
    ensures c.deps >= 2 ==> Tallied(c.(deps := c.deps + 1), log)
    ensures c.sends >= 3 ==> Tallied(c.(sends := c.sends + 1), log)
  {
    hide Count;
    forall k: Kind | c.deps >= 2 ensures Within(c.(deps := c.deps + 1), k,
        Count(log, k)) { assert Within(c, k, Count(log, k)); }
    forall k: Kind | c.sends >= 3 ensures Within(c.(sends := c.sends + 1), k,
        Count(log, k)) { assert Within(c, k, Count(log, k)); }
  }

  lemma MayAsk(log: seq<Act>, check: Check, charge: Charge)
    requires Count(log, Question(check)) == 0
    requires Recorded(if check == HelloCheck then Resumed else Identified, true) in log
    ensures Permitted(log, Checked(check, true), charge)
  {
  }

  lemma AskedOnce(calls: seq<nat>, i: nat, check: Check, ok: bool, c: Tally, log: seq<Act>)
    requires (check, i) in {(TokenCheck, 0), (ImageCheck, 1), (HandlesCheck, 2), (HelloCheck, 3)} && |calls| == 5
        && calls[i] == 0
    requires c.token == calls[0] && c.image == calls[1] && c.handles == calls[2] && c.hello == calls[3]
        && Tallied(c, log)
    ensures Count(log, Question(check)) == 0
    ensures var d := calls[i := 1];
            Tallied(c.(token := d[0], image := d[1], handles := d[2], hello := d[3]), log + [Checked(check, ok)])
  {
    hide Count;
    var d := calls[i := 1];
    assert Within(c, Question(check), Count(log, Question(check)));
    forall k: Kind
      ensures Within(c.(token := d[0], image := d[1], handles := d[2], hello := d[3]), k,
          Count(log + [Checked(check, ok)], k))
    {
      assert Within(c, k, Count(log, k));
      CountMore(log, Checked(check, ok), k);
    }
  }

  lemma DependenciesAsked(c: Tally, ok: bool, log: seq<Act>, charge: Charge)
    requires c.deps < 2 && Tallied(c, log) && Recorded(Identified, true) in log
    ensures Permitted(log, Checked(DependenciesCheck, true), charge)
    ensures Tallied(c.(deps := c.deps + 1), log + [Checked(DependenciesCheck, ok)])
  {
    hide Count;
    assert Within(c, Question(DependenciesCheck), Count(log, Question(DependenciesCheck)));
    forall k: Kind
      ensures Within(c.(deps := c.deps + 1), k, Count(log + [Checked(DependenciesCheck, ok)], k))
    {
      assert Within(c, k, Count(log, k));
      CountMore(log, Checked(DependenciesCheck, ok), k);
    }
  }

  lemma FoundQuiet(a: seq<Act>, b: seq<Act>, p: Identity)
    requires Quiet(a, b) && Found(a, p)
    ensures Found(b, p)
  {
  }

  lemma ExitTallied(c: Tally, log: seq<Act>, ok: bool)
    requires Tallied(c, log) && !c.closed
    ensures Tallied(c.(closed := true), log + [ClosedExit(ok)])
  {
    hide Count;
    forall k: Kind ensures Within(c.(closed := true), k, Count(log + [ClosedExit(ok)], k)) {
      assert Within(c, k, Count(log, k));
      CountMore(log, ClosedExit(ok), k);
    }
  }

  lemma IoTallied(c: Tally, log: seq<Act>, ok: bool)
    requires Tallied(c, log) && !c.ioClosed
    ensures Tallied(c.(ioClosed := true), log + [ClosedIo(ok)])
  {
    hide Count;
    forall k: Kind ensures Within(c.(ioClosed := true), k, Count(log + [ClosedIo(ok)], k)) {
      assert Within(c, k, Count(log, k));
      CountMore(log, ClosedIo(ok), k);
    }
  }

  lemma SendTallied(c: Tally, log: seq<Act>)
    requires Tallied(c, log) && c.sends < 3
    ensures Tallied(c.(sends := c.sends + 1), log + [SentFrame])
  {
    hide Count;
    forall k: Kind ensures Within(c.(sends := c.sends + 1), k, Count(log + [SentFrame], k)) {
      assert Within(c, k, Count(log, k));
      CountMore(log, SentFrame, k);
    }
  }

  lemma ProvenQuiet(a: seq<Act>, b: seq<Act>, charge: Charge, launch: Reading)
    requires Quiet(a, b) && ProvenBy(a, charge, launch)
    ensures ProvenBy(b, charge, launch)
  {
    hide GoodProof;
  }

  lemma ReidentifiedQuiet(a: seq<Act>, b: seq<Act>, charge: Charge)
    requires Quiet(a, b) && Reidentified(a, charge)
    ensures Reidentified(b, charge)
  {
    hide FitsCharge, Found;
    var k: nat, p: Identity :| SameAgain(a, k, charge, p) && Found(a[..k], p) && FitsCharge(charge, p);
    assert a[..k] == b[..k] && SameAgain(b, k, charge, p);
  }

  /** A check was made: the good stays good only if it succeeded. */
  ghost predicate Asked(a: seq<Act>, b: seq<Act>, ok: bool) {
    (Guarded(a) ==> Guarded(b)) && (Passed(a) && ok ==> Passed(b))
        && Count(b, Acknowledgement) == Count(a, Acknowledgement)
  }

  lemma NoteIsQuiet(log: seq<Act>, a: Act)
    requires KindOf(a) == Note
    ensures Quiet(log, log + [a]) && Quiet(log, log)
  {
  }

  /** The same state, or unknown unless custody was released. */
  predicate Fell(s: State, t: State) {
    t == s || (s != Released && t == UnknownState)
  }

  /** One more act: what was remembered still is. */
  lemma ActKeeps(a: seq<Act>, x: Act, s: State, exited: bool, f: Facts)
    ensures Remembered(s, exited, f, a) ==> Remembered(s, exited, f, a + [x])
    ensures !x.Checked? && !x.ResumedWorker? ==> Stands(a, a + [x])
    ensures Count(a + [x], Acknowledgement) == Count(a, Acknowledgement) + if x.AckedIdentity? then 1 else 0
    ensures Guarded(a) && (x.ResumedWorker? ==> Passed(a)) ==> Guarded(a + [x])
    ensures Passed(a) && (x.Checked? ==> x.ok) ==> Passed(a + [x])
  {
    CountMore(a, x, Acknowledgement);
    if !x.Checked? && !x.ResumedWorker? { PlainKeeps(a, a + [x]); }
    if Guarded(a) && (x.ResumedWorker? ==> Passed(a)) { GuardedMore(a, x); }
  }

  /** Peaks only grow. */
  ghost predicate Raised(a: seq<ResourceSample>, b: seq<ResourceSample>) {
    |a| == |b| && forall i | 0 <= i < |a| ::
      && a[i].observedAt <= b[i].observedAt && a[i].working <= b[i].working
      && a[i].commit <= b[i].commit && a[i].handles <= b[i].handles
  }

  class Custodian {
    const world: CustodySeam
    const journal: CustodyJournal
    const frozen: Frozen
    const limits: Limits
    const idHash: Identity -> Option<Digest>
    const limitsHash: Limits -> Digest
    const clock: ClockValidator
    var state: State
    var identity: Identity
    var launch: Reading
    var accepted: bool
    var attempted: bool
    var resumeAttempted: bool
    var closed: bool
    var ioClosed: bool
    var exit: bool
    var stopped: bool
    var polls: nat
    var samples: nat
    var deps: nat
    var sends: nat
    var clocks: nat
    var peaks: seq<ResourceSample>
    /** How often token, image, handles, hello and observe were asked for. */
    var calls: seq<nat>

    constructor (journal: CustodyJournal, frozen: Frozen, limits: Limits, idHash: Identity -> Option<Digest>,
        limitsHash: Limits -> Digest)
      requires journal.Valid() && journal.count == 0 && !journal.failed && journal.world.log == []
          && journal.world.charge == Charge(frozen, idHash)
      ensures Valid() && fresh(this) && fresh(clock) && this.journal == journal && world == journal.world
          && this.frozen == frozen
      ensures this.limits == limits && state == Preapproved
    {
      world, this.journal, this.frozen, this.limits := journal.world, journal, frozen, limits;
      this.idHash, this.limitsHash := idHash, limitsHash;
      clock := new ClockValidator();
      state, identity, launch := Preapproved, NO_IDENTITY, NO_READING;
      accepted, attempted, resumeAttempted, closed, ioClosed, exit, stopped := false, false, false, false, false,
          false, false;
      polls, samples, deps, sends, clocks := 0, 0, 0, 0, 0;
      peaks, calls := [NO_SAMPLE, NO_SAMPLE, NO_SAMPLE], [0, 0, 0, 0, 0];
    }

    ghost function Counts(): Tally
      requires |calls| == 5
      reads `accepted, `attempted, `resumeAttempted, `closed, `ioClosed, `calls, `deps, `sends
    {
      Tally(accepted, attempted, resumeAttempted, closed, ioClosed, calls[0], calls[1], calls[2], calls[3], deps, sends)
    }

    ghost predicate Ledger()
      reads `state, journal
    {
      && InOrder(journal.entries) && journal.count <= 12
      && (state != UnknownState && !journal.failed ==> journal.count == Rank(state) && Open(journal.entries))
    }

    ghost predicate Past()
      reads `state, `exit, `launch, `identity, `accepted, `attempted, `resumeAttempted, `closed, `ioClosed, `calls,
          `deps,
          `sends, world
    {
      && |calls| == 5 && Careful(world.log, world.charge)
      && Remembered(state, exit, Known(), world.log)
      && Tallied(Counts(), world.log)
      && (state != UnknownState && Rank(state) >= 6 ==> FitsCharge(world.charge, identity))
    }

    ghost function Known(): Facts
      reads `launch, `identity
    {
      Facts(launch, identity)
    }

    /** The validator is where what it was shown leaves it. */
    ghost predicate Timed()
      reads clock, world
    {
      clock.Valid() && clock.Now() == CustodyClock(world.log, world.charge)
    }

    ghost predicate Valid()
      reads this, journal, world, clock
    {
      && Founded() && Timed() && Ledger() && Past() && Measured()
    }

    ghost predicate Founded()
      reads journal
    {
      journal.world == world && world.charge == Charge(frozen, idHash) && journal.Valid()
    }

    /** Custody is only taken within valid limits, and no peak is above them. */
    ghost predicate Measured()
      reads `accepted, `state, `peaks
    {
      && (state != Preapproved && state != UnknownState ==> accepted) && (accepted ==> limits.Valid())
      && |peaks| == 3 && (|limits.process| == 3 ==> PeaksFit())
    }

    ghost function Repr(): set<object>
      reads this
    {
      {this, journal, world, clock}
    }

    /** Down to unknown, recorded once if it still can be; a released custody stays so. */
    method Unknown()
      requires Valid()
      modifies this`state, this`stopped, journal, world
      ensures Valid() && stopped && Quiet(old(world.log), world.log) && Upholds(old(world.log), world.log)
      ensures state == if old(state) == Released then Released else UnknownState
    {
      hide PeaksFit, Limits.Valid, Found, InTimeFor, Careful, Count, Tallied, InOrder, Open, Chained, Permitted,
          Remembered, Quiet, Passed, Guarded,
          CustodyClock, FitsCharge, Stated;
      QuietKeeps(world.log, world.log, state, exit, Known(), Counts());
      if state == Released {
        stopped := true;
        return;
      }
      if state != UnknownState && !journal.failed {
        InOrderMore(journal.entries, Entry(journal.count + 1, UnknownState, journal.previous, idHash(identity)));
        PermittedNote(world.log, UnknownState, world.charge);
        var threw, ok := journal.Append(UnknownState, idHash(identity));
      }
      QuietKeeps(old(world.log), world.log, state, exit, Known(), Counts());
      state, stopped := UnknownState, true;
    }

    /** Writes the next state down. */
    method Write(s: State) returns (threw: bool, ok: bool)
      requires Valid() && accepted && state != Released && state != UnknownState && s != UnknownState
          && Rank(s) == Rank(state) + 1
      requires Permitted(world.log, Recorded(s, true), world.charge)
      modifies journal, world
      ensures Founded() && Timed() && Past() && Measured() && (threw ==> !ok)
      ensures if ok then WrittenUp(s) && Recorded(s, true) in world.log else Ledger()
      ensures Quiet(old(world.log), world.log) && Upholds(old(world.log), world.log)
    {
      hide Found, Rank, Limits.Valid, PeaksFit, Careful, Count, Tallied, InOrder, Open, Chained, Permitted, Remembered,
          Quiet, Passed, Guarded, CustodyClock, FitsCharge, Stated;
      if !journal.failed {
        InOrderMore(journal.entries, Entry(journal.count + 1, s, journal.previous, idHash(identity)));
      }
      threw, ok := journal.Append(s, idHash(identity));
      QuietKeeps(old(world.log), world.log, state, exit, Known(), Counts());
    }

    /** The journal is in order up to state s. */
    ghost predicate WrittenUp(s: State)
      reads journal
    {
      InOrder(journal.entries) && Open(journal.entries) && !journal.failed && journal.count == Rank(s) <= 12
    }

    method Enter(s: State) returns (threw: bool, ok: bool)
      requires Valid() && accepted && state != Released && state != UnknownState && s != UnknownState
          && Rank(s) == Rank(state) + 1
      requires Permitted(world.log, Recorded(s, true), world.charge)
      requires Rank(s) == 3 ==> Proved(launch) in world.log
      requires Rank(s) == 6 ==> Found(world.log, identity) && FitsCharge(world.charge, identity)
      requires Rank(s) == 7 ==> AckedIdentity(true) in world.log
      requires Rank(s) == 10 ==> ClosedExit(true) in world.log
      modifies this`state, journal, world
      ensures Valid() && Quiet(old(world.log), world.log) && Upholds(old(world.log), world.log)
      ensures (threw ==> !ok) && state == if ok then s else old(state)
    {
      hide Timed, Founded, Found, Rank, Limits.Valid, PeaksFit, Careful, Count, Tallied, InOrder, Open, Chained,
          Permitted, Remembered, Quiet, Upholds, Passed, Guarded, CustodyClock, FitsCharge, Stated;
      ghost var before := world.log;
      threw, ok := Write(s);
      if ok {
        if Rank(s) == 6 { FoundQuiet(before, world.log, identity); }
        if Rank(s) == 3 { QuietIn(before, world.log, Proved(launch)); }
        if Rank(s) == 7 { QuietIn(before, world.log, AckedIdentity(true)); }
        if Rank(s) == 10 { QuietIn(before, world.log, ClosedExit(true)); }
        RememberedNext(state, s, exit, Known(), world.log);
        state := s;
      }
    }

    /** Writes the next state down, then enters it. */
    method Persist(s: State) returns (threw: bool, ok: bool)
      requires Valid() && accepted && state != Released && s != UnknownState
      requires state != UnknownState ==> Rank(s) == Rank(state) + 1 && Truthful(world.log, s, world.charge)
      requires state != UnknownState && Rank(s) == 3 ==> Proved(launch) in world.log
      requires state != UnknownState && Rank(s) == 6 ==>
          Found(world.log, identity) && FitsCharge(world.charge, identity)
      requires state != UnknownState && Rank(s) == 7 ==> AckedIdentity(true) in world.log
      requires state != UnknownState && Rank(s) == 10 ==> ClosedExit(true) in world.log
      modifies this`state, this`stopped, journal, world
      ensures Valid() && Quiet(old(world.log), world.log) && Upholds(old(world.log), world.log)
      ensures threw ==> !ok && state == old(state) && stopped == old(stopped)
      ensures ok ==> old(state) != UnknownState && state == s && stopped == old(stopped)
      ensures !threw && !ok ==> state == UnknownState && stopped
    {
      hide Timed, Careful, Count, Tallied, InOrder, Open, Chained, Permitted, Remembered, Quiet, Passed, Guarded,
          Preceded,
          Truthful;
      threw, ok := false, false;
      QuietKeeps(world.log, world.log, state, exit, Known(), Counts());
      if state == UnknownState {
        Unknown();
        return;
      }
      RememberedBefore(state, s, exit, Known(), world.log);
      PermittedNote(world.log, s, world.charge);
      threw, ok := Enter(s);
      if threw { return; }
      ghost var between := world.log;
      if !ok { Unknown(); }
      QuietTwice(old(world.log), between, world.log);
    }

    /** Reads the clock, within the budget of readings. None is an invalid reading. The
        validator has yet to see what was read. */
    method ReadClock() returns (threw: bool, r: Reading)
      requires Valid()
      modifies this`state, this`stopped, this`clocks, journal, world
      ensures if threw then Valid() && world.log == old(world.log) else Unseen(r)
      ensures Quiet(old(world.log), world.log) && Upholds(old(world.log), world.log) && Fell(old(state), state)
      ensures !threw && r.valid ==> state == old(state) && stopped == old(stopped)
    {
      hide Careful, Count, Tallied, InOrder, Open, Chained, Permitted, Remembered, Quiet, Passed, Guarded,
          CustodyClock, FitsCharge, Stated, NextClock;
      threw, r := false, NO_READING;
      clocks := clocks + 1;
      if clocks > 4 * limits.polls + 32 {
        Unknown();
        ghost var fallen := world.log;
        NoReading();
        QuietTwice(old(world.log), fallen, world.log);
        return;
      }
      threw, r := world.ReadClock();
      NoteIsQuiet(old(world.log), ClockRead(r));
      QuietKeeps(old(world.log), world.log, state, exit, Known(), Counts());
    }

    ghost method NoReading()
      requires Valid()
      modifies world
      ensures Unseen(NO_READING) && Quiet(old(world.log), world.log) && Upholds(old(world.log), world.log)
    {
      hide Careful, Count, Tallied, InOrder, Open, Chained, Permitted, Remembered, Quiet, Passed, Guarded,
          CustodyClock, FitsCharge, Stated, NextClock, Found, InTimeFor;
      world.NoReading();
      NoteIsQuiet(old(world.log), ClockRead(NO_READING));
      QuietKeeps(old(world.log), world.log, state, exit, Known(), Counts());
    }

    /** All is well, but for the reading r at the end of the log. */
    ghost predicate Unseen(r: Reading)
      reads this, journal, world, clock
    {
      && Founded() && Ledger() && Past() && Measured()
      && clock.Valid() && world.log != [] && world.log[|world.log| - 1] == ClockRead(r)
      && CustodyClock(world.log, world.charge) == NextClock(clock.Now(), r)
    }

    /** Within the approved window and the execution time since the launch, by a clock that
        agrees with itself. */
    method Timely() returns (threw: bool, ok: bool)
      requires Valid()
      modifies this`state, this`stopped, this`clocks, journal, world, clock
      ensures Valid() && Quiet(old(world.log), world.log) && Upholds(old(world.log), world.log)
          && Fell(old(state), state)
      ensures threw ==> !ok
      ensures ok ==> state == old(state) && stopped == old(stopped) && InTimeFor(world.log, world.charge, launch)
    {
      hide Careful, Count, Tallied, InOrder, Open, Chained, Permitted, Remembered, Quiet, Passed, Guarded,
          CustodyClock, FitsCharge, Stated;
      ok := false;
      var n;
      threw, n := ReadClock();
      if threw { return; }
      ok := clock.Accept(n);
      ok := ok && Window(frozen.grant, n) && launch.mono <= n.mono && n.mono - launch.mono < DURATION;
    }

    // ----- one act on the worker each

    method DoAccept(f: Frozen) returns (threw: bool, r: Receipt)
      requires Valid() && !accepted && limits.Valid()
      modifies this`accepted, world
      ensures Valid() && accepted
      ensures world.log == old(world.log) + [AcceptedIntent(!threw && r.ok && r.independent && r.target == f.digest
          && r.owner == f.owner)]
      ensures Upholds(old(world.log), world.log)
    {
      hide Ledger, Careful, Count, Remembered, Passed, Guarded, CustodyClock, FitsCharge, Stated;
      accepted := true;
      threw, r := world.AcceptIntent(f);
      ActKeeps(old(world.log), world.log[|old(world.log)|], state, exit, Known());
    }

    method DoCreate() returns (threw: bool, created: bool, pid: U32)
      requires Valid() && Count(world.log, Creation) == 0 && attempted && state == Attempt
          && InTimeFor(world.log, world.charge, launch)
      modifies world
      ensures Valid() && world.log == old(world.log) + [CreatedWorker(!threw && created && pid != 0, pid)]
      ensures Upholds(old(world.log), world.log)
    {
      hide Ledger, Careful, Count, Passed, Guarded, CustodyClock, FitsCharge, Stated;
      assert Recorded(Attempt, true) in world.log && Proved(launch) in world.log;
      hide Remembered;
      threw, created, pid := world.Create();
      ActKeeps(old(world.log), world.log[|old(world.log)|], state, exit, Known());
    }

    method DoIdentify() returns (threw: bool, p: Identity)
      requires Valid()
      modifies world
      ensures Valid() && Quiet(old(world.log), world.log) && Upholds(old(world.log), world.log)
      ensures world.log == if threw then old(world.log) else old(world.log) + [Named(p)]
    {
      hide Careful, Count, Tallied, Remembered, Passed, Guarded, Quiet, Permitted, CustodyClock, FitsCharge, Stated;
      threw, p := world.ProcessIdentity();
      NoteIsQuiet(old(world.log), Named(p));
      QuietKeeps(old(world.log), world.log, state, exit, Known(), Counts());
    }

    method DoAcknowledge() returns (threw: bool, r: Receipt)
      requires Valid() && state == Identified && InTimeFor(world.log, world.charge, launch)
      modifies world
      ensures Valid() && Stands(old(world.log), world.log)
      ensures Count(world.log, Acknowledgement) == Count(old(world.log), Acknowledgement) + 1
      ensures world.log == old(world.log) + [AckedIdentity(!threw && r.ok && r.ownsHandles
          && r.identity == idHash(identity))]
    {
      hide Ledger, Careful, Count, Passed, Guarded, CustodyClock, FitsCharge, Stated;
      assert Recorded(Identified, true) in world.log && Proved(launch) in world.log;
      hide Remembered;
      threw, r := world.Acknowledge(idHash(identity));
      ActKeeps(old(world.log), world.log[|old(world.log)|], state, exit, Known());
    }

    /** Every state up to this one was written down. */
    lemma OnRecord(s: State)
      requires Valid() && state != UnknownState && 1 <= Rank(s) <= Rank(state)
      ensures Recorded(s, true) in world.log
    {
      hide Ledger, Careful, Count, Passed, Guarded, Tallied;
    }

    /** Token, image or handles: asked for at most once. */
    method DoAsk(c: Check, i: nat) returns (threw: bool, ok: bool)
      requires Valid() && (c, i) in {(TokenCheck, 0), (ImageCheck, 1), (HandlesCheck, 2), (HelloCheck, 3)}
      requires calls[i] == 0 && state == if c == HelloCheck then Resumed else Identified
      modifies this`calls, world
      ensures Valid() && (threw ==> !ok) && Asked(old(world.log), world.log, ok)
    {
      hide InOrder, Open, PeaksFit, Limits.Valid, Quiet, Ledger, Careful, Count, Passed, Guarded, Tallied, Permitted,
          Remembered, CustodyClock, FitsCharge, Stated,
          Found, InTimeFor;
      OnRecord(state);
      ghost var before := calls;
      AskedOnce(before, i, c, true, Counts(), world.log);
      AskedOnce(before, i, c, false, Counts(), world.log);
      MayAsk(world.log, c, world.charge);
      calls := calls[i := 1];
      threw, ok := world.Ask(c);
      ActKeeps(old(world.log), world.log[|old(world.log)|], state, exit, Known());
    }

    method DoAskDependencies() returns (threw: bool, ok: bool)
      requires Valid() && deps < 2 && state in {Identified, Resumed}
      modifies this`deps, world
      ensures Valid() && (threw ==> !ok) && Asked(old(world.log), world.log, ok)
    {
      hide Ledger, Careful, Count, Passed, Guarded, Tallied, Permitted, Remembered, CustodyClock, FitsCharge, Stated,
          Found, InTimeFor;
      OnRecord(Identified);
      DependenciesAsked(Counts(), true, world.log, world.charge);
      DependenciesAsked(Counts(), false, world.log, world.charge);
      deps := deps + 1;
      threw, ok := world.Ask(DependenciesCheck);
      ActKeeps(old(world.log), world.log[|old(world.log)|], state, exit, Known());
    }

    lemma MayResume()
      requires Valid() && Count(world.log, Resumption) == 0 && state == ResumeIntent
      requires calls[0] == calls[1] == calls[2] == deps == 1 && InTimeFor(world.log, world.charge, launch)
      requires Reidentified(world.log, world.charge)
      ensures Permitted(world.log, ResumedWorker(true, true), world.charge)
    {
      hide Truthful, Preceded, Quiet, Ledger, Careful, Count, Passed, Guarded, CustodyClock, FitsCharge, Stated;
      assert Recorded(Acknowledged, true) in world.log && Recorded(ResumeIntent, true) in world.log
          && Proved(launch) in world.log;
    }

    method DoResume() returns (threw: bool, ok: bool, known: bool)
      requires Valid() && Count(world.log, Resumption) == 0 && resumeAttempted && state == ResumeIntent
      requires calls[0] == calls[1] == calls[2] == deps == 1 && InTimeFor(world.log, world.charge, launch)
      requires Reidentified(world.log, world.charge)
      modifies world
      ensures Valid() && (threw ==> !ok)
      ensures world.log == old(world.log) + [ResumedWorker(known, ok)]
      ensures Passed(old(world.log)) ==> Upholds(old(world.log), world.log)
    {
      hide Truthful, Preceded, Quiet, Ledger, Careful, Count, Passed, Guarded, Remembered, Permitted, CustodyClock,
          FitsCharge, Stated, Found, InTimeFor;
      MayResume();
      threw, ok, known := world.Resume();
      ActKeeps(old(world.log), world.log[|old(world.log)|], state, exit, Known());
    }

    method DoObserve() returns (threw: bool, healthy: bool, exited: bool)
      requires Valid() && state in {Accepted, Resumed}
      modifies world
      ensures Valid() && Upholds(old(world.log), world.log)
      ensures !threw && healthy && exited ==> ObservedWorker(true, true) in world.log
    {
      hide Ledger, Careful, Count, Passed, Guarded, CustodyClock, FitsCharge, Stated, Found, InTimeFor;
      assert Recorded(Accepted, true) in world.log;
      hide Remembered;
      threw, healthy, exited := world.Observe();
      ActKeeps(old(world.log), world.log[|old(world.log)|], state, exit, Known());
    }

    method DoNext() returns (threw: bool, ok: bool)
      requires Valid() && state == Resumed
      modifies world
      ensures Valid() && Upholds(old(world.log), world.log)
    {
      hide Ledger, Careful, Count, Passed, Guarded, CustodyClock, FitsCharge, Stated, Found, InTimeFor;
      assert Recorded(Resumed, true) in world.log;
      hide Remembered;
      threw, ok := world.Next();
      ActKeeps(old(world.log), world.log[|old(world.log)|], state, exit, Known());
    }

    lemma MaySend()
      requires Valid() && state == Resumed && sends < 3
      ensures Permitted(world.log, SentFrame, world.charge)
    {
      hide Ledger, Careful, Count, Passed, Guarded, CustodyClock, FitsCharge, Found;
      assert Recorded(Resumed, true) in world.log;
    }

    method DoSend() returns (threw: bool, ok: bool)
      requires Valid() && state == Resumed && sends < 3
      modifies this`sends, world
      ensures Valid() && Upholds(old(world.log), world.log)
    {
      hide Tallied, Ledger, Careful, Count, Passed, Guarded, CustodyClock, FitsCharge, Stated, Found, InTimeFor,
          Remembered,
          Permitted;
      MaySend();
      SendTallied(Counts(), world.log);
      sends := sends + 1;
      threw, ok := world.SendOut();
      ActKeeps(old(world.log), world.log[|old(world.log)|], state, exit, Known());
    }

    lemma MayCloseExit()
      requires Valid() && state == Resumed && exit && !closed
      ensures Permitted(world.log, ClosedExit(true), world.charge)
    {
      hide Ledger, Careful, Count, Passed, Guarded, CustodyClock, FitsCharge, Stated;
      assert Recorded(Resumed, true) in world.log && ObservedWorker(true, true) in world.log;
    }

    lemma MayCloseIo()
      requires Valid() && state == Settled && !ioClosed
      ensures Permitted(world.log, ClosedIo(true), world.charge)
    {
      hide Ledger, Careful, Count, Passed, Guarded, CustodyClock, FitsCharge, Stated;
      assert Recorded(Settled, true) in world.log && ClosedExit(true) in world.log;
    }

    method DoCloseExit() returns (threw: bool, ok: bool)
      requires Valid() && state == Resumed && exit && !closed
      modifies this`closed, world
      ensures Valid() && closed && (threw ==> !ok) && Upholds(old(world.log), world.log)
      ensures ok ==> ClosedExit(true) in world.log
    {
      hide Tallied, Ledger, Careful, Count, Passed, Guarded, Remembered, Permitted, CustodyClock, FitsCharge, Stated,
          Found,
          InTimeFor;
      MayCloseExit();
      ExitTallied(Counts(), world.log, true);
      ExitTallied(Counts(), world.log, false);
      closed := true;
      threw, ok := world.CloseExit();
      ActKeeps(old(world.log), world.log[|old(world.log)|], state, exit, Known());
    }

    method DoCloseIo() returns (threw: bool, ok: bool)
      requires Valid() && state == Settled && !ioClosed
      modifies this`ioClosed, world
      ensures Valid() && ioClosed && (threw ==> !ok) && Upholds(old(world.log), world.log)
      ensures ok ==> ClosedIo(true) in world.log
    {
      hide Tallied, Ledger, Careful, Count, Passed, Guarded, Remembered, Permitted, CustodyClock, FitsCharge, Stated,
          Found,
          InTimeFor;
      MayCloseIo();
      IoTallied(Counts(), world.log, true);
      IoTallied(Counts(), world.log, false);
      ioClosed := true;
      threw, ok := world.CloseIo();
      ActKeeps(old(world.log), world.log[|old(world.log)|], state, exit, Known());
    }

    // ----- the operations

    /** Accepts custody of exactly the frozen target, before any worker exists. Nothing is
        thrown. */
    method AcceptIntent(f: Frozen) returns (ok: bool)
      requires Valid()
      modifies Repr()
      ensures Valid() && Advances(old(state), state) && Upholds(old(world.log), world.log)
      ensures ok ==>
          state == Accepted && old(state) == Preapproved && f.sound && f.digest == frozen.digest
          && limits.Valid()
    {
      hide Timed, Past, Ledger, Careful, Count, Tallied, InOrder, Open, Chained, Permitted, Remembered, Quiet, Passed,
          Guarded, CustodyClock, FitsCharge, Stated;
      ok := false;
      if state != Preapproved || accepted || !f.sound || f.digest != frozen.digest || !limits.Valid()
         || f.limits != limitsHash(limits) || f.maxPumps != limits.polls
         || limits.process[0] != f.controller
         || limits.process[2] != ResourceLimit(f.grant.working, f.grant.commit, f.grant.handles) {
        Unknown();
        return;
      }
      var threw, matching := world.MeasureHosts();
      if threw || !matching {
        Unknown();
        return;
      }
      var a;
      threw, a := DoAccept(f);
      if threw || !a.ok || !a.independent || a.target != f.digest || a.owner != f.owner {
        Unknown();
        return;
      }
      threw, ok := Persist(Ready);
      if ok { threw, ok := Persist(Accepted); }
      if !ok { Unknown(); }
    }

    /** Reads the proof of the consumed grant once and checks it against the frozen target
        and the clock. */
    method Judge() returns (threw: bool, ok: bool)
      requires Valid() && state == Accepted
      modifies this`launch, clock, world
      ensures Valid() && (threw ==> !ok) && Quiet(old(world.log), world.log) && Upholds(old(world.log), world.log)
      ensures ok ==> ProvenBy(world.log, world.charge, launch)
    {
      hide Ledger, Careful, Count, Tallied, InOrder, Open, Chained, Permitted, Remembered, Quiet, Passed, Guarded,
          CustodyClock, FitsCharge, Stated, Agrees, ProvenBy;
      ok := false;
      var read, c;
      QuietKeeps(world.log, world.log, state, exit, Known(), Counts());
      threw, read, c := world.ReadProof();
      if threw { return; }
      NoteIsQuiet(old(world.log), ProofRead(read, c));
      QuietKeeps(old(world.log), world.log, state, exit, Known(), Counts());
      ok := Weigh(read, c);
      if ok { ok := Anchor(c); }
    }

    /** The launch the proof states becomes the anchor of every later deadline. */
    method Anchor(c: Consumption) returns (ok: bool)
      requires Valid() && state == Accepted && ProofRead(true, c) in world.log && Stated(world.charge, true, c)
      modifies this`launch
      ensures Valid() && (ok ==> ProvenBy(world.log, world.charge, launch))
    {
      hide Timed, Ledger, Careful, Count, Tallied, InOrder, Open, Chained, Permitted, Remembered, Quiet, Passed,
          Guarded,
          CustodyClock, FitsCharge, Stated, NextClock;
      LaunchIsFree(state, exit, Known(), LaunchOf(c), world.log);
      launch := Reading(c.launchUtc, c.launchMono, c.session, true);
      ok := InSequence(c.issued, launch, c.now);
      assert ok ==> GoodProof(world.charge, c);
    }

    /** Everything the proof says, and its two readings by the custodian's own validator. */
    method Weigh(read: bool, c: Consumption) returns (ok: bool)
      requires Founded() && clock.Valid()
      modifies clock
      ensures clock.Valid() && clock.Now() == Shown(old(clock.Now()), ProofRead(read, c), world.charge)
      ensures ok ==> read && Stated(world.charge, read, c)
    {
      hide Agrees;
      ok := false;
      if !read || !c.pinned || c.marker != 2 || !c.pinsValid || !c.journalValid || c.kind != 3 { return; }
      if !c.receiptValid || c.target != frozen.digest || c.objects != Some(c.journalObjects)
          || c.session != c.issued.session { return; }
      ok := clock.Accept(c.issued);
      if ok { ok := clock.Accept(c.now); }
    }

    /** A good proof, in time, goes on record: the grant is consumed, a creation intended. */
    method Proof() returns (threw: bool, ok: bool)
      requires Valid() && state == Accepted
      modifies this`state, this`stopped, this`clocks, this`launch, journal, world, clock
      ensures Valid() && (threw ==> !ok) && Upholds(old(world.log), world.log) && Advances(Accepted, state)
      ensures world.log == old(world.log) || Quiet(old(world.log), world.log)
      ensures ok ==> state == Intent && stopped == old(stopped)
    {
      hide Timed, Past, Ledger, Careful, Count, Tallied, InOrder, Open, Chained, Permitted, Remembered, Quiet, Passed,
          Guarded, CustodyClock, FitsCharge, Stated;
      threw, ok := Judge();
      ghost var judged := world.log;
      QuietTwice(judged, judged, judged);
      if threw { return; }
      if ok { threw, ok := Timely(); }
      QuietTwice(old(world.log), judged, world.log);
      if threw { return; }
      ghost var between := world.log;
      QuietTwice(old(world.log), judged, between);
      if ok {
        ProvenQuiet(judged, between, world.charge, launch);
        NotFailedInTime(between, world.charge, launch);
        threw, ok := Conclude();
      } else {
        Unknown();
      }
      QuietTwice(old(world.log), between, world.log);
    }

    /** Issue, launch and now, in this order by a fresh clock. */
    method InSequence(issued: Reading, launched: Reading, now: Reading) returns (ok: bool)
      ensures ok == !NextClock(NextClock(NextClock(NEW_CLOCK, issued), launched), now).failed
    {
      hide Agrees;
      var chronology := new ClockValidator();
      ok := chronology.Accept(issued);
      if ok { ok := chronology.Accept(launched); }
      if ok { ok := chronology.Accept(now); }
    }

    /** The proof is good: that goes on record. */
    ghost method NoteProof()
      requires Valid() && ProvenBy(world.log, world.charge, launch) && !CustodyClock(world.log, world.charge).failed
      modifies world
      ensures Valid() && Quiet(old(world.log), world.log) && Upholds(old(world.log), world.log)
      ensures Proved(launch) in world.log
    {
      hide Ledger, Careful, Count, Tallied, InOrder, Open, Chained, Remembered, Quiet, Passed, Guarded, CustodyClock,
          FitsCharge, Stated, ProvenBy;
      world.Add(Proved(launch));
      NoteIsQuiet(old(world.log), Proved(launch));
      QuietKeeps(old(world.log), world.log, state, exit, Known(), Counts());
    }

    method Conclude() returns (threw: bool, ok: bool)
      requires Valid() && state == Accepted
      requires ProvenBy(world.log, world.charge, launch) && !CustodyClock(world.log, world.charge).failed
      modifies this`state, this`stopped, journal, world
      ensures Valid() && (threw ==> !ok) && Upholds(old(world.log), world.log) && Advances(Accepted, state)
      ensures Quiet(old(world.log), world.log)
      ensures ok ==> state == Intent && stopped == old(stopped)
    {
      hide Timed, Ledger, Careful, Count, Tallied, InOrder, Open, Chained, Permitted, Remembered, Quiet, Passed,
          Guarded,
          CustodyClock, FitsCharge, Stated;
      ghost var before := world.log;
      NoteProof();
      ghost var proved := world.log;
      threw, ok := Persist(Consumed);
      QuietTwice(before, proved, world.log);
      ghost var consumed := world.log;
      if ok { threw, ok := Persist(Intent); }
      QuietTwice(before, consumed, world.log);
    }

    /** Creates the worker, suspended: at most once, and only right after a clock reading in
        time. Whatever is not as it should be about it leaves custody unknown. */
    method Create() returns (threw: bool, created: bool)
      requires Valid()
      modifies Repr()
      ensures Valid() && Advances(old(state), state) && Upholds(old(world.log), world.log)
      ensures created && state != UnknownState ==> old(state) == Accepted && state == Identified
    {
      hide Timed, Ledger, Careful, Count, Tallied, InOrder, Open, Chained, Permitted, Remembered, Quiet, Passed,
          Guarded,
          CustodyClock, FitsCharge, Stated;
      threw, created := false, false;
      if !accepted || attempted || stopped || state != Accepted {
        Unknown();
        return;
      }
      var ok;
      threw, ok := Prepare();
      if threw { return; }
      if !ok {
        Unknown();
        return;
      }
      created := CreateNow();
    }

    /** Proof, record and clock: what comes before the creation. */
    method Prepare() returns (threw: bool, ok: bool)
      requires Valid() && state == Accepted && !attempted
      modifies this`state, this`stopped, this`clocks, this`launch, this`attempted, journal, world, clock
      ensures Valid() && attempted && (threw ==> !ok) && Upholds(old(world.log), world.log) && Advances(Accepted, state)
      ensures ok ==> state == Attempt && Count(world.log, Creation) == 0 && InTimeFor(world.log, world.charge, launch)
    {
      hide PeaksFit, Limits.Valid, Timed, Ledger, Careful, Count, Tallied, InOrder, Open, Chained, Permitted,
          Remembered, Quiet, Passed,
          Guarded,
          CustodyClock, FitsCharge, Stated;
      NotYet(Counts(), world.log);
      attempted := true;
      MayAttempt(old(Counts()), Counts(), world.log);
      ghost var before := world.log;
      threw, ok := Proof();
      ghost var proved := world.log;
      QuietTwice(before, proved, proved);
      if !ok { return; }
      threw, ok := Persist(Attempt);
      QuietTwice(before, proved, world.log);
      ghost var recorded := world.log;
      if !ok { return; }
      threw, ok := Timely();
      QuietTwice(before, recorded, world.log);
      QuietCounts(before, world.log, Creation);
    }

    method CreateNow() returns (created: bool)
      requires Valid() && attempted && state == Attempt && Count(world.log, Creation) == 0
          && InTimeFor(world.log, world.charge, launch)
      modifies this`state, this`stopped, this`clocks, this`identity, journal, world, clock
      ensures Valid() && Upholds(old(world.log), world.log) && state in {Attempt, Identified, UnknownState}
      ensures state != Attempt && (created && state != UnknownState ==> state == Identified)
    {
      hide Timed, Past, Ledger, Careful, Count, Tallied, InOrder, Open, Chained, Permitted, Remembered, Quiet, Passed,
          Guarded, CustodyClock, FitsCharge, Stated;
      var threw, pid;
      threw, created, pid := DoCreate();
      created := created && !threw;
      if !created || pid == 0 {
        Unknown();
        return;
      }
      created := Identify(pid);
    }

    /** The created process must be one of the frozen target, in time; then it is on record. */
    method Identify(pid: U32) returns (created: bool)
      requires Valid() && state == Attempt && CreatedWorker(true, pid) in world.log
      modifies this`state, this`stopped, this`clocks, this`identity, journal, world, clock
      ensures Valid() && Upholds(old(world.log), world.log) && state in {Identified, UnknownState}
      ensures created && state != UnknownState ==> state == Identified
    {
      hide Timed, Past, Ledger, Careful, Count, Tallied, InOrder, Open, Chained, Permitted, Remembered, Quiet, Passed,
          Guarded, CustodyClock, FitsCharge, Stated, InTimeFor;
      created := true;
      ghost var born := world.log;
      var threw, p := DoIdentify();
      ghost var named := world.log;
      if threw {
        Unknown();
        return false;
      }
      Remember(p);
      var ok := Fits(p, pid);
      if ok { threw, ok := Timely(); }
      QuietTwice(born, named, world.log);
      QuietIn(born, world.log, CreatedWorker(true, pid));
      QuietIn(named, world.log, Named(p));
      if ok { threw, ok := Persist(Identified); }
      if threw { created := false; }
      if !ok { Unknown(); }
    }

    /** Keeps what the process was found to be. */
    method Remember(p: Identity)
      requires Valid() && state == Attempt
      modifies this`identity
      ensures Valid() && identity == p
    {
      hide Timed, Ledger, Careful, Count, Tallied, InOrder, Open, Chained, Permitted, Remembered, Quiet, Passed,
          Guarded,
          CustodyClock, FitsCharge, Stated;
      IdentityIsFree(state, exit, Known(), p, world.log);
      identity := p;
    }

    /** Is this the created process, and one of the frozen target? */
    method Fits(p: Identity, pid: U32) returns (ok: bool)
      requires Founded()
      ensures ok <==> p.pid == pid && FitsCharge(world.charge, p)
    {
      ok := p.pid == pid && p.creation != 0 && p.target == frozen.digest && p.owner == frozen.owner
            && p.image == frozen.grant.image && p.account == frozen.account && p.medium && p.nonElevated;
    }

    method ProcessIdentity() returns (p: Identity)
      ensures p == if state == Identified then identity else NO_IDENTITY
    {
      p := if state == Identified then identity else NO_IDENTITY;
    }

    method AcknowledgeIdentity(p: Identity) returns (threw: bool, ok: bool)
      requires Valid()
      modifies Repr()
      ensures Valid() && Advances(old(state), state) && Stands(old(world.log), world.log)
      ensures ok ==> old(state) == Identified && state == Acknowledged
      // The owner is asked at most once, and only about the identity that was found.
      ensures Count(world.log, Acknowledgement) == Count(old(world.log), Acknowledgement)
              || (Count(world.log, Acknowledgement) == Count(old(world.log), Acknowledgement) + 1
                  && idHash(p) == idHash(old(identity)))
    {
      hide Timed, Ledger, Careful, Count, Tallied, InOrder, Open, Chained, Permitted, Remembered, Quiet, Passed,
          Guarded,
          CustodyClock, FitsCharge, Stated;
      threw, ok := false, false;
      if state != Identified || idHash(p) != idHash(identity) {
        Unknown();
        return;
      }
      threw, ok := Timely();
      if threw { return; }
      if !ok {
        Unknown();
        return;
      }
      var a;
      threw, a := DoAcknowledge();
      if threw { return threw, false; }
      ok := a.ok && a.ownsHandles && a.identity == idHash(identity);
      if ok { threw, ok := Persist(Acknowledged); }
      if threw { return; }
      if !ok { Unknown(); }
    }

    method Token() returns (threw: bool, ok: bool)
      requires Valid()
      modifies this`calls, world
      ensures Valid() && Asked(old(world.log), world.log, ok)
    {
      hide Timed, Ledger, Careful, Count, Tallied, InOrder, Open, Chained, Permitted, Remembered, Quiet, Passed,
          Guarded,
          CustodyClock, FitsCharge, Stated;
      threw, ok := AskOnce(TokenCheck, 0);
    }

    method Image() returns (threw: bool, ok: bool)
      requires Valid()
      modifies this`calls, world
      ensures Valid() && Asked(old(world.log), world.log, ok)
    {
      hide Timed, Ledger, Careful, Count, Tallied, InOrder, Open, Chained, Permitted, Remembered, Quiet, Passed,
          Guarded,
          CustodyClock, FitsCharge, Stated;
      threw, ok := AskOnce(ImageCheck, 1);
    }

    method Handles() returns (threw: bool, ok: bool)
      requires Valid()
      modifies this`calls, world
      ensures Valid() && Asked(old(world.log), world.log, ok)
    {
      hide Timed, Ledger, Careful, Count, Tallied, InOrder, Open, Chained, Permitted, Remembered, Quiet, Passed,
          Guarded,
          CustodyClock, FitsCharge, Stated;
      threw, ok := AskOnce(HandlesCheck, 2);
    }

    /** Asks only the first time, and only about a suspended worker. */
    method AskOnce(c: Check, i: nat) returns (threw: bool, ok: bool)
      requires Valid() && (c, i) in {(TokenCheck, 0), (ImageCheck, 1), (HandlesCheck, 2)}
      modifies this`calls, world
      ensures Valid() && Asked(old(world.log), world.log, ok)
    {
      hide Timed, Ledger, Careful, Count, Tallied, InOrder, Open, Chained, Permitted, Remembered, Quiet, Passed,
          Guarded,
          CustodyClock, FitsCharge, Stated;
      threw, ok := false, false;
      if state != Identified { return; }
      if calls[i] != 0 {
        CallAgain(calls, i, Counts(), world.log);
        calls := calls[i := calls[i] + 1];
        return;
      }
      threw, ok := DoAsk(c, i);
    }

    /** Once while the worker is suspended, once more after it said hello. */
    method Dependencies() returns (threw: bool, ok: bool)
      requires Valid()
      modifies this`deps, world
      ensures Valid() && Asked(old(world.log), world.log, ok)
    {
      hide Timed, Ledger, Careful, Count, Tallied, InOrder, Open, Chained, Permitted, Remembered, Quiet, Passed,
          Guarded,
          CustodyClock, FitsCharge, Stated;
      threw, ok := false, false;
      if (state != Identified && state != Resumed) || stopped { return; }
      if deps >= 2 {
        AskAgain(Counts(), world.log);
        deps := deps + 1;
        return;
      }
      threw, ok := DoAskDependencies();
    }

    /** Resumes the worker, at most once: its identity acknowledged, every check asked for
        exactly once, and the intent on record before the deed. A lost result stays
        unknown. */
    method Resume() returns (threw: bool, ok: bool, known: bool)
      requires Valid()
      modifies Repr()
      ensures Valid() && Advances(old(state), state)
      ensures Passed(old(world.log)) ==> Upholds(old(world.log), world.log)
      ensures ok ==> known && old(state) == Acknowledged && state == Resumed
    {
      hide Timed, Ledger, Careful, Count, Tallied, InOrder, Open, Chained, Permitted, Remembered, Quiet, Passed,
          Guarded,
          CustodyClock, FitsCharge, Stated;
      threw, ok, known := false, false, false;
      if state != Acknowledged || stopped || resumeAttempted || calls[0] != 1 || calls[1] != 1 || calls[2] != 1
          || deps != 1 {
        Unknown();
        return;
      }
      threw, ok := Timely();
      if threw { return; }
      if !ok {
        Unknown();
        return;
      }
      threw, ok, known := ResumeOnce();
    }

    method ResumeOnce() returns (threw: bool, ok: bool, known: bool)
      requires Valid() && state == Acknowledged && !resumeAttempted && calls[0] == calls[1] == calls[2] == deps == 1
      modifies this`state, this`stopped, this`clocks, this`resumeAttempted, journal, world, clock
      ensures Valid() && state in {Acknowledged, ResumeIntent, Resumed, UnknownState}
      ensures Passed(old(world.log)) ==> Upholds(old(world.log), world.log)
      ensures ok ==> known && state == Resumed
    {
      hide Timed, Ledger, Careful, Count, Tallied, InOrder, Open, Chained, Permitted, Remembered, Quiet, Passed,
          Guarded,
          CustodyClock, FitsCharge, Stated;
      known := false;
      NotYet(Counts(), world.log);
      ghost var open := Counts();
      resumeAttempted := true;
      MayAttempt(open, Counts(), world.log);
      ghost var before := world.log;
      threw, ok := Persist(ResumeIntent);
      if !ok { return; }
      QuietCounts(before, world.log, Resumption);
      threw, ok, known := ResumeNow();
    }

    lemma IntentOnRecord()
      requires Valid() && state == ResumeIntent
      ensures Recorded(ResumeIntent, true) in world.log && Found(world.log, identity)
          && FitsCharge(world.charge, identity)
    {
      hide Ledger, Careful, Count, Passed, Guarded, Tallied, CustodyClock, FitsCharge, Found;
    }

    /** The process that was found was found once more. */
    lemma AgainIdentified(before: seq<Act>, p: Identity)
      requires Valid() && world.log == before + [Named(p)] && idHash(p) == idHash(identity)
      requires Recorded(ResumeIntent, true) in before && Found(before, identity) && FitsCharge(world.charge, identity)
      ensures Reidentified(world.log, world.charge)
    {
      hide Ledger, Careful, Count, Tallied, InOrder, Open, Chained, Permitted, Quiet, Passed, Guarded, CustodyClock,
          FitsCharge, Stated;
      ghost var k := |before|;
      assert world.log[..k] == before;
      assert SameAgain(world.log, k, world.charge, identity);
    }

    method ResumeNow() returns (threw: bool, ok: bool, known: bool)
      requires Valid() && state == ResumeIntent && resumeAttempted && Count(world.log, Resumption) == 0
      requires calls[0] == calls[1] == calls[2] == deps == 1
      modifies this`state, this`stopped, this`clocks, journal, world, clock
      ensures Valid() && (threw ==> !ok) && state in {ResumeIntent, Resumed, UnknownState}
      ensures Passed(old(world.log)) ==> Upholds(old(world.log), world.log)
      ensures ok ==> known && state == Resumed
    {
      hide Timed, Past, Ledger, Careful, Count, Tallied, InOrder, Open, Chained, Permitted, Remembered, Quiet, Passed,
          Guarded, CustodyClock, FitsCharge, Stated, Found, Reidentified, InTimeFor;
      known := false;
      ghost var before := world.log;
      threw, ok := IdentifyAgain();
      if threw { return; }
      QuietCounts(before, world.log, Resumption);
      if !ok {
        Unknown();
        return;
      }
      var failed;
      failed, ok, known := DoResume();
      ok := ok && known && !failed;
      failed, ok := AfterResume(ok);
      if failed { known := false; }
    }

    /** Looks at the process once more, and at the clock. */
    method IdentifyAgain() returns (threw: bool, ok: bool)
      requires Valid() && state == ResumeIntent
      modifies this`state, this`stopped, this`clocks, journal, world, clock
      ensures Valid() && Quiet(old(world.log), world.log) && Upholds(old(world.log), world.log)
      ensures (threw ==> !ok) && Fell(old(state), state)
      ensures ok ==> state == old(state) && stopped == old(stopped)
                     && InTimeFor(world.log, world.charge, launch) && Reidentified(world.log, world.charge)
    {
      hide Timed, Past, Ledger, Careful, Count, Tallied, InOrder, Open, Chained, Permitted, Remembered, Quiet, Passed,
          Guarded, CustodyClock, FitsCharge, Stated, Found, Reidentified, InTimeFor;
      ok := false;
      ghost var before := world.log;
      IntentOnRecord();
      var p;
      threw, p := DoIdentify();
      ghost var named := world.log;
      QuietTwice(before, named, named);
      if threw { return; }
      if idHash(p) == idHash(identity) {
        AgainIdentified(before, p);
        threw, ok := Timely();
        ReidentifiedQuiet(named, world.log, world.charge);
      }
      QuietTwice(before, named, world.log);
    }

    /** A resumption that went well is written down, if the clock still allows it. */
    method AfterResume(resumed: bool) returns (threw: bool, ok: bool)
      requires Valid() && state == ResumeIntent && (resumed ==> ResumedWorker(true, true) in world.log)
      modifies this`state, this`stopped, this`clocks, journal, world, clock
      ensures Valid() && Upholds(old(world.log), world.log) && (threw ==> !ok)
      ensures state in {Resumed, UnknownState} && (ok ==> resumed && state == Resumed)
    {
      hide Timed, Past, Ledger, Careful, Count, Tallied, InOrder, Open, Chained, Permitted, Remembered, Quiet, Passed,
          Guarded, CustodyClock, FitsCharge, Stated, Found, InTimeFor;
      threw, ok := false, resumed;
      ghost var before := world.log;
      if ok { threw, ok := Timely(); }
      QuietTwice(before, before, world.log);
      if ok {
        QuietIn(before, world.log, ResumedWorker(true, true));
        threw, ok := Persist(Resumed);
      }
      if !ok { Unknown(); }
    }

    method Hello() returns (threw: bool, ok: bool)
      requires Valid()
      modifies Repr()
      ensures Valid() && Asked(old(world.log), world.log, ok) && Fell(old(state), state)
    {
      hide Timed, Ledger, Careful, Count, Tallied, InOrder, Open, Chained, Permitted, Remembered, Quiet, Passed,
          Guarded,
          CustodyClock, FitsCharge, Stated;
      threw, ok := false, false;
      if state != Resumed { return; }
      threw, ok := Timely();
      if !ok { return; }
      if calls[3] != 0 {
        CallAgain(calls, 3, Counts(), world.log);
        calls := calls[3 := calls[3] + 1];
        return threw, false;
      }
      threw, ok := DoAsk(HelloCheck, 3);
    }

    /** One process of a sample: not older than its peaks, and within its limits. */
    method SampleOne(i: nat, s: ResourceSample, idle: bool) returns (ok: bool)
      requires Measured() && limits.Valid() && i < 3
      modifies this`peaks
      ensures Measured() && Raised(old(peaks), peaks) && (ok ==> peaks[i].observedAt != 0)
    {
      ok := false;
      var bound, peak := limits.process[i], peaks[i];
      if s.observedAt == 0 || s.working == 0 || s.commit == 0 || (s.handles == 0 && !idle)
          || s.observedAt < peak.observedAt
         || s.working > bound.working || s.commit > bound.commit || s.handles > bound.handles {
        return;
      }
      peaks := peaks[i := ResourceSample(s.observedAt, Max(peak.working, s.working), Max(peak.commit, s.commit),
          Max(peak.handles, s.handles), 0)];
      ok := true;
    }

    /** Three processes, every peak within its limit, no sample older than the one before.
        A worker that is not there yet is not looked at; one that has exited may hold no
        handles. */
    method Sample(present: bool, exited: bool) returns (threw: bool, ok: bool)
      requires Valid() && limits.Valid()
      modifies this`state, this`stopped, this`samples, this`peaks, journal, world
      ensures Valid() && Quiet(old(world.log), world.log) && Upholds(old(world.log), world.log)
          && Fell(old(state), state)
      ensures Raised(old(peaks), peaks)
      ensures ok ==> !threw && state == old(state) && forall i | 0 <= i < (if present then 3 else 2) ::
          peaks[i].observedAt != 0
    {
      hide Timed, Past, Ledger, Careful, Count, Tallied, InOrder, Open, Chained, Permitted, Remembered, Quiet, Passed,
          Guarded, CustodyClock, FitsCharge, Stated;
      ok := false;
      QuietNothing(world.log);
      threw, samples := false, samples + 1;
      if samples > 2 * limits.polls + 16 {
        Unknown();
        return;
      }
      var s;
      threw, ok, s := world.SampleThree();
      if threw { return threw, false; }
      if !ok {
        Unknown();
        return;
      }
      for i := 0 to if present then 3 else 2
        invariant Valid() && state == old(state) && stopped == old(stopped) && world.log == old(world.log)
        invariant Raised(old(peaks), peaks) && forall j | 0 <= j < i :: peaks[j].observedAt != 0
      {
        ok := SampleOne(i, s[i], i == 2 && exited);
        if !ok {
          Unknown();
          return;
        }
      }
      ok := true;
    }

    /** Healthy, within the limits, and not too often: before the creation and after the
        resumption. */
    method Observe() returns (threw: bool, ok: bool)
      requires Valid()
      modifies Repr()
      ensures Valid() && Upholds(old(world.log), world.log) && Fell(old(state), state) && Raised(old(peaks), peaks)
    {
      hide Timed, Past, Ledger, Careful, Count, Tallied, InOrder, Open, Chained, Permitted, Remembered, Quiet, Passed,
          Guarded, CustodyClock, FitsCharge, Stated;
      threw, ok := false, false;
      QuietNothing(world.log);
      if state != Accepted && state != Resumed { return; }
      var many := CountLook();
      if many || stopped { return; }
      var exited;
      threw, ok, exited := DoObserve();
      if threw { return threw, false; }
      ghost var seen := world.log;
      if ok { threw, ok := Sample(state == Resumed, exited); }
      if threw { return; }
      if !ok {
        Unknown();
        return;
      }
      if exited {
        QuietIn(seen, world.log, ObservedWorker(true, true));
        NoteExit();
      }
    }

    /** One more observation was asked for; too many? */
    method CountLook() returns (many: bool)
      requires Valid()
      modifies this`calls
      ensures Valid()
    {
      hide Timed, Ledger, Careful, Count, Tallied, Permitted, Remembered, CustodyClock, FitsCharge;
      calls := calls[4 := calls[4] + 1];
      many := calls[4] > 2 * limits.polls + 16;
    }

    method NoteExit()
      requires Valid() && ObservedWorker(true, true) in world.log
      modifies this`exit
      ensures Valid() && exit
    {
      hide Timed, Ledger, Careful, Count, Tallied, Permitted, Remembered, CustodyClock, FitsCharge;
      ExitSeen(state, exit, Known(), world.log);
      exit := true;
    }

    method Next() returns (threw: bool, ok: bool)
      requires Valid()
      modifies this`polls, world
      ensures Valid() && Upholds(old(world.log), world.log)
    {
      hide Timed, Ledger, Careful, Count, Tallied, InOrder, Open, Chained, Permitted, Remembered, Quiet, Passed,
          Guarded,
          CustodyClock, FitsCharge, Stated;
      QuietKeeps(world.log, world.log, state, exit, Known(), Counts());
      threw, ok := false, false;
      if state != Resumed || stopped { return; }
      polls := polls + 1;
      if polls > limits.polls { return; }
      threw, ok := DoNext();
      ok := ok && !threw;
    }

    /** At most three frames, and only to a resumed worker. */
    method Send() returns (threw: bool, ok: bool)
      requires Valid()
      modifies this`sends, world
      ensures Valid() && Upholds(old(world.log), world.log)
    {
      hide Timed, Ledger, Careful, Count, Tallied, InOrder, Open, Chained, Permitted, Remembered, Quiet, Passed,
          Guarded,
          CustodyClock, FitsCharge, Stated;
      QuietKeeps(world.log, world.log, state, exit, Known(), Counts());
      threw, ok := false, false;
      if state != Resumed || stopped { return; }
      if sends >= 3 {
        AskAgain(Counts(), world.log);
        sends := sends + 1;
        return;
      }
      threw, ok := DoSend();
      ok := ok && !threw;
    }

    /** Lets go of the worker after its exit was observed; once. */
    method CloseObservedExit() returns (threw: bool, ok: bool)
      requires Valid()
      modifies Repr()
      ensures Valid() && Advances(old(state), state) && Upholds(old(world.log), world.log)
      ensures ok ==> old(state) == Resumed && state == Settled
    {
      hide Timed, Ledger, Careful, Count, Tallied, InOrder, Open, Chained, Permitted, Remembered, Quiet, Passed,
          Guarded,
          CustodyClock, FitsCharge, Stated;
      QuietKeeps(world.log, world.log, state, exit, Known(), Counts());
      threw, ok := false, false;
      if state != Resumed || closed || !exit { return; }
      threw, ok := DoCloseExit();
      if threw { return; }
      if !ok {
        Unknown();
        return;
      }
      threw, ok := Persist(Exited);
      if ok { threw, ok := Persist(Settled); }
    }

    /** Releases the pipe, and with it custody: only a settled one, and once. */
    method CloseOwnedIo() returns (threw: bool, ok: bool)
      requires Valid()
      modifies Repr()
      ensures Valid() && Advances(old(state), state) && Upholds(old(world.log), world.log)
      ensures ok ==> old(state) == Settled && state == Released
    {
      hide Timed, Ledger, Careful, Count, Tallied, InOrder, Open, Chained, Permitted, Remembered, Quiet, Passed,
          Guarded,
          CustodyClock, FitsCharge, Stated;
      QuietKeeps(world.log, world.log, state, exit, Known(), Counts());
      threw, ok := false, false;
      if state != Settled || ioClosed { return; }
      threw, ok := DoCloseIo();
      if threw { return; }
      if !ok {
        Unknown();
        return;
      }
      threw, ok := Persist(Released);
    }

    /** The controller is gone: custody is kept, and unknown unless it was released. */
    method ControllerLost()
      requires Valid()
      modifies Repr()
      ensures Valid() && stopped && Upholds(old(world.log), world.log)
      ensures state == if old(state) == Released then Released else UnknownState
    {
      hide Timed, Ledger, Careful, Count, Tallied, InOrder, Open, Chained, Permitted, Remembered, Quiet, Passed,
          Guarded,
          CustodyClock, FitsCharge, Stated;
      Unknown();
      DoControllerLost();
    }

    method DoControllerLost()
      requires Valid()
      modifies world
      ensures Valid() && Upholds(old(world.log), world.log)
    {
      hide Ledger, Careful, Count, Tallied, InOrder, Open, Chained, Permitted, Remembered, Quiet, Passed, Guarded,
          CustodyClock, FitsCharge, Stated;
      world.ControllerLost();
      NoteIsQuiet(old(world.log), LossNoted);
      QuietKeeps(old(world.log), world.log, state, exit, Known(), Counts());
    }

    method CustodianLost()
      requires Valid()
      modifies this`state, this`stopped, journal, world
      ensures Valid() && stopped && Upholds(old(world.log), world.log)
      ensures state == if old(state) == Released then Released else UnknownState
    {
      hide Timed, Ledger, Careful, Count, Tallied, InOrder, Open, Chained, Permitted, Remembered, Quiet, Passed,
          Guarded,
          CustodyClock, FitsCharge, Stated;
      stopped := true;
      QuietKeeps(world.log, world.log, state, exit, Known(), Counts());
      if state != Released { Unknown(); }
    }

    /** No recorded peak is above the limit of its process. */
    ghost predicate PeaksFit()
      requires |limits.process| == 3
      reads `peaks
    {
      |peaks| == 3 && forall i | 0 <= i < 3 ::
        && peaks[i].working <= limits.process[i].working && peaks[i].commit <= limits.process[i].commit
        && peaks[i].handles <= limits.process[i].handles
    }
  }
}
