/** Issue, consume and start of one grant: one human approval, one receipt, one request,
    one burn, each attempted at most once. A write whose outcome is not known to be a
    success leaves the grant unknown for good. */
module GrantFlows {
  import opened WireBytes
  import opened Settlements
  import opened PermissionLog

  // ----- the clock's validator

  class ClockValidator {
    var anchor: Reading
    var last: Reading
    var initialized: bool
    var failed: bool

    constructor ()
      ensures Valid() && Now() == NEW_CLOCK
    {
      anchor, last, initialized, failed := NO_READING, NO_READING, false, false;
    }

    predicate Valid()
      reads this
    {
      initialized ==> anchor.utc <= last.utc && anchor.mono <= last.mono
    }

    function Now(): Clock
      reads this
    {
      Clock(initialized, failed, anchor, last)
    }

    /** Accepts a reading that agrees with all before it; one that does not closes the
        validator for good. */
    method Accept(r: Reading) returns (ok: bool)
      requires Valid()
      modifies this
      ensures Valid()
      ensures ok == (!old(failed) && Agrees(old(Now()), r))
      ensures if ok then Now() == Advanced(old(Now()), r) && !failed else Now() == old(Now()).(failed := true)
    {
      if failed || !r.valid || r.utc == 0 || r.session == 0 {
        failed := true;
        return false;
      }
      if !initialized {
        anchor, last, initialized := r, r, true;
        return true;
      }
      if r.session != anchor.session || r.utc < last.utc || r.mono < last.mono {
        failed := true;
        return false;
      }
      var wall, elapsed := r.utc - anchor.utc, r.mono - anchor.mono;
      if (if wall > elapsed then wall - elapsed else elapsed - wall) > 1000 {
        failed := true;
        return false;
      }
      last := r;
      ok := true;
    }
  }

  // ----- the grant

  datatype GrantState = Unissued | Issued | ConsumedGrant | UnknownGrant

  datatype ConsumptionRecord = ConsumptionRecord(persisted: bool, requestStarted: bool, confirmed: bool,
      unknown: bool, state: GrantState)

  datatype Prompt = Prompt(target: Target, hash: Digest)

  function MakePrompt(binding: Binding, t: Target, sid: string): Option<Prompt> {
    match TargetHash(binding, t, sid)
    case None => None
    case Some(hash) => Some(Prompt(t, hash))
  }

  /** The response agrees to this prompt, and the prompt is still what the target says. */
  predicate Confirmed(binding: Binding, p: Prompt, r: Response, current: Target, sid: string) {
    && MakePrompt(binding, current, sid) == Some(Prompt(current, p.hash))
    && p.target.(userApproved := current.userApproved) == current
    && Agreed(r, p.hash)
  }

  ghost predicate AllDone(log: seq<Event>) {
    forall i | 0 <= i < |log| :: log[i].Wrote? ==> log[i].result == Done
  }

  class GrantFlow {
    const world: World
    const binding: Binding
    const clock: ClockValidator
    var reading: Reading
    var target: Option<Target>
    var hash: Digest
    var record: ConsumptionRecord
    var attempted: bool
    var issued: bool
    var startAttempted: bool

    constructor (world: World, binding: Binding)
      requires world.log == [] && binding == world.terms.binding
      ensures this.world == world && this.binding == binding && fresh(clock) && Valid() && !issued && !attempted
      ensures record == ConsumptionRecord(false, false, false, false, Unissued) && clock.Now() == NEW_CLOCK
    {
      this.world, this.binding := world, binding;
      clock := new ClockValidator();
      reading, target, hash := NO_READING, None, seq(32, i => 0);
      record := ConsumptionRecord(false, false, false, false, Unissued);
      attempted, issued, startAttempted := false, false, false;
    }

    /** What the flow remembers agrees with the log. */
    ghost predicate ValidWith(log: seq<Event>)
      reads this, clock
    {
      && clock.Valid() && Lawful(log, world.terms) && binding == world.terms.binding
      && (!attempted ==> NoWrite(log, NewReceipt) && !issued && record.state == Unissued)
      && (!issued ==> !startAttempted)
      && (!record.requestStarted ==> NoWrite(log, NewRequest) && NoWrite(log, BurnIssued) && NoWrite(log, MarkConsumed))
      && (!startAttempted ==> NoWrite(log, MarkStart))
      && (issued ==> Wrote(NewReceipt, hash, Done) in log && target == Some(world.terms.target.(userApproved := true)))
      && (!issued ==> !record.requestStarted && record.state in {Unissued, UnknownGrant} && AllDoneBut(log))
      && (record.state == Issued ==> issued && !record.requestStarted && AllDone(log))
      && (record.confirmed <==> record.state == ConsumedGrant)
      && (record.confirmed ==> Wrote(MarkConsumed, hash, Done) in log && AllDone(log))
      && (record.unknown <==> record.state == UnknownGrant)
    }

    ghost predicate Valid()
      reads this, clock, world
    {
      ValidWith(world.log)
    }

    /** Before anything was issued, only the issue itself can have been written. */
    ghost predicate AllDoneBut(log: seq<Event>)
    {
      forall i | 0 <= i < |log| :: log[i].Wrote? ==> log[i].write == NewReceipt
    }

    /** What other parts of the controller log does not touch the grant. */
    lemma Untouched(log: seq<Event>, e: Event)
      requires ValidWith(log) && Legal(log, e, world.terms) && !e.Wrote?
      ensures ValidWith(log + [e])
    {
      hide ValidWith, Legal, Lawful;
      LawfulHere(log);
      LawfulAppend(log, e, world.terms);
      Kept(log, log + [e]);
    }

    lemma LawfulHere(log: seq<Event>)
      requires ValidWith(log)
      ensures Lawful(log, world.terms)
    {
    }

    /** Nor does any number of lawful events that are not writes. */
    lemma Kept(before: seq<Event>, after: seq<Event>)
      requires ValidWith(before) && before <= after && Lawful(after, world.terms)
      requires forall i | |before| <= i < |after| :: !after[i].Wrote?
      ensures ValidWith(after)
    {
      hide Legal, Lawful;
      assert forall i | 0 <= i < |before| :: after[i] == before[i];
    }

    /** One more write on the log. */
    lemma Written(before: seq<Event>, w: Write, h: Digest, result: IoResult)
      requires Lawful(before, world.terms) && NoWrite(before, w) && Prior(before, w, h, world.terms)
          && world.log == before + [Wrote(w, h, result)]
      ensures Lawful(world.log, world.terms) && Wrote(w, h, result) in world.log
      ensures forall v | v != w && NoWrite(before, v) :: NoWrite(world.log, v)
      ensures AllDone(before) && result == Done ==> AllDone(world.log)
      ensures AllDoneBut(before) && w == NewReceipt ==> AllDoneBut(world.log)
      ensures forall e | e in before :: e in world.log
    {
      hide Legal, Lawful, Assented;
      LawfulWrite(before, w, h, result, world.terms);
    }

    /** Before the issue, nothing at all was written. */
    lemma OnlyIssued(before: seq<Event>)
      requires NoWrite(before, NewReceipt) && AllDoneBut(before)
      ensures AllDone(before)
    {
    }

    /** Not known to be a success: unknown, and never a confirmed consumption again. */
    method Uncertain() returns (ok: bool)
      modifies this`record
      ensures !ok && record == old(record).(unknown := true, confirmed := false, state := UnknownGrant)
    {
      record := record.(unknown := true, confirmed := false, state := UnknownGrant);
      ok := false;
    }

    /** What no operation undoes. */
    twostate predicate Monotone()
      reads this, world
    {
      && (old(record.unknown) ==> record.unknown)
      && (old(record.requestStarted) ==> record.requestStarted)
      && (old(issued) ==> issued && hash == old(hash) && target == old(target))
      && Writes(old(world.log), world.log)
    }

    method Issue(p: Prompt, r: Response, current: Target, sid: string, now: Reading) returns (ok: bool)
      requires Valid() && current == world.terms.target && sid == world.terms.sid && Responded(r) in world.log
      modifies this, clock, world
      ensures Valid() && Monotone()
      ensures ok ==> !old(attempted) && issued && record.state == Issued && hash == p.hash && !startAttempted
      ensures ok ==> target == Some(current.(userApproved := true)) && current.ValidPreApproval() && Agreed(r, p.hash)
      ensures issued <==> old(issued) || ok
    {
      hide Legal, Lawful, Target.ValidPreApproval, Confirmed, Assented;
      if attempted { return false; }
      attempted := true;
      ok := clock.Accept(now);
      if !ok || !Window(current, now) { return false; }
      var threw, yes := world.Ask();
      if threw { ok := Uncertain(); return; }
      if !yes || !Confirmed(binding, p, r, current, sid) { return false; }
      Assents(world.log, p, r, current, sid);
      ok := IssueNew(p, current);
    }

    /** A confirmed response is the human's assent to the hash of this target. */
    lemma Assents(log: seq<Event>, p: Prompt, r: Response, current: Target, sid: string)
      requires binding == world.terms.binding && current == world.terms.target && sid == world.terms.sid
      requires Responded(r) in log && Confirmed(binding, p, r, current, sid)
      ensures Assented(log, p.hash, world.terms) && Agreed(r, p.hash) && current.ValidPreApproval()
    {
    }

    method IssueNew(p: Prompt, current: Target) returns (ok: bool)
      requires Valid() && attempted && !issued && record.state == Unissued && NoWrite(world.log, NewReceipt)
      requires Assented(world.log, p.hash, world.terms) && current == world.terms.target
      modifies this, world
      ensures Valid() && Monotone() && attempted == old(attempted) && startAttempted == old(startAttempted)
      ensures ok ==>
          issued && record.state == Issued && hash == p.hash
          && target == Some(current.(userApproved := true))
      ensures issued <==> ok
    {
      hide Legal, Lawful, NoWrite, AllDone, AllDoneBut, Assented;
      var result := WriteReceipt(p.hash);
      if result == Unsure { ok := Uncertain(); return; }
      if result != Done { return false; }
      var pinned: bool, identified: bool := *, *;
      var threw, yes := world.Ask();
      if threw || !pinned || !yes || !identified { ok := Uncertain(); return; }
      target, hash, issued := Some(current.(userApproved := true)), p.hash, true;
      record := record.(persisted := true, state := Issued);
      ok := true;
    }

    /** The receipt of what the human assented to. */
    method WriteReceipt(h: Digest) returns (result: IoResult)
      requires Lawful(world.log, world.terms) && NoWrite(world.log, NewReceipt) && AllDoneBut(world.log)
      requires Assented(world.log, h, world.terms)
      modifies world
      ensures Lawful(world.log, world.terms) && world.log == old(world.log) + [Wrote(NewReceipt, h, result)]
      ensures forall v | v != NewReceipt && NoWrite(old(world.log), v) :: NoWrite(world.log, v)
      ensures AllDoneBut(world.log) && (result == Done ==> AllDone(world.log))
      ensures Wrote(NewReceipt, h, result) in world.log
    {
      hide Legal, Lawful, Assented;
      OnlyIssued(world.log);
      ghost var before := world.log;
      var threw;
      threw, result := world.Attempt(NewReceipt, h);
      if threw { result := Unsure; }
      LawfulWrite(before, NewReceipt, h, result, world.terms);
    }

    // ----- consumption and start

    /** Is a journal record of this reading well-formed? */
    predicate Journaled(r: Reading) {
      r.valid && r.session != 0 && r.utc != 0
    }

    method Prepare(r: Reading) returns (ok: bool)
      requires Valid()
      modifies this`reading, clock
      ensures Valid() && reading == r
      ensures ok ==> issued && record.state == Issued && target.Some? && Window(target.value, r)
    {
      reading := r;
      if !issued || !record.persisted || record.unknown || record.state != Issued { return false; }
      ok := clock.Accept(r);
      ok := ok && Window(target.value, r);
    }

    method Consume(observed: Target, utc: U64) returns (ok: bool)
      requires Valid()
      modifies this`record, world
      ensures Valid() && Monotone() && issued == old(issued)
      ensures ok ==> record.confirmed && target == Some(observed) && Wrote(MarkConsumed, hash, Done) in world.log
      ensures !ok ==> !record.confirmed || old(record.confirmed)
    {
      hide Legal, Lawful, NoWrite, AllDone, AllDoneBut;
      if target != Some(observed) || utc != reading.utc { return false; }
      if !issued || !record.persisted || record.unknown || record.state != Issued || record.requestStarted
         || !Window(target.value, reading) {
        return false;
      }
      var threw, yes := world.Ask();
      if threw { ok := Uncertain(); return; }
      if !yes { return false; }
      record := record.(requestStarted := true);
      // From here on, anything short of three successes leaves the grant unknown.
      if Journaled(reading) { ok := ConsumeWrites(); } else { ok := false; }
      if ok {
        record := record.(confirmed := true, state := ConsumedGrant);
      } else {
        ok := Uncertain();
      }
    }

    /** Request, burn, and the request marked consumed: each once, each only after the
        one before succeeded. The record of the consumption cannot fail to be well-formed,
        because the request's was. */
    method ConsumeWrites() returns (ok: bool)
      requires clock.Valid() && Lawful(world.log, world.terms) && issued && Wrote(NewReceipt, hash, Done) in world.log
          && AllDone(world.log)
      requires NoWrite(world.log, NewRequest) && NoWrite(world.log, BurnIssued) && NoWrite(world.log, MarkConsumed)
      modifies world
      ensures Lawful(world.log, world.terms) && Writes(old(world.log), world.log)
      ensures NoWrite(old(world.log), MarkStart) ==> NoWrite(world.log, MarkStart)
      ensures Wrote(NewReceipt, hash, Done) in world.log
      ensures ok ==> AllDone(world.log) && Wrote(MarkConsumed, hash, Done) in world.log
    {
      hide Legal, Lawful, NoWrite, AllDone, AllDoneBut;
      ok := WriteOnce(NewRequest);
      if ok { ok := WriteOnce(BurnIssued); }
      if ok { ok := WriteOnce(MarkConsumed); }
    }

    /** One write of the consumption, after the one it needs. */
    method WriteOnce(w: Write) returns (ok: bool)
      requires Lawful(world.log, world.terms) && AllDone(world.log) && NoWrite(world.log, w)
      requires w != NewReceipt && Before(w, hash) in world.log
      modifies world
      ensures Lawful(world.log, world.terms) && |world.log| == |old(world.log)| + 1 && Writes(old(world.log), world.log)
      ensures forall v | v != w && NoWrite(old(world.log), v) :: NoWrite(world.log, v)
      ensures forall e | e in old(world.log) :: e in world.log
      ensures ok ==> AllDone(world.log) && Wrote(w, hash, Done) in world.log
    {
      hide Legal, Lawful, NoWrite, AllDone, AllDoneBut;
      ghost var before := world.log;
      var threw, result := world.Attempt(w, hash);
      Written(before, w, hash, if threw then Unsure else result);
      ok := !threw && result == Done;
    }

    /** Marks the start, once, after a confirmed consumption. */
    method Start(r: Reading) returns (ok: bool)
      requires Valid()
      modifies this`record, this`startAttempted, clock, world
      ensures Valid() && Monotone() && issued == old(issued)
      ensures ok ==> record.confirmed && Wrote(MarkStart, hash, Done) in world.log
      ensures record.confirmed ==> old(record.confirmed)
    {
      hide Assented, Target.ValidPreApproval, SafeId, Window, Legal, Lawful, NoWrite, AllDone, AllDoneBut;
      if !record.confirmed || record.unknown || record.state != ConsumedGrant || startAttempted { return false; }
      startAttempted := true;
      ok := clock.Accept(r);
      if !ok || !Window(target.value, r) { return false; }
      var threw, yes := world.Ask();
      if threw { ok := Uncertain(); return; }
      if !yes { return false; }
      // A reading the clock accepts always makes a well-formed record.
      assert Journaled(r);
      ghost var before := world.log;
      var result;
      threw, result := world.Attempt(MarkStart, hash);
      Written(before, MarkStart, hash, if threw then Unsure else result);
      if threw || result != Done { ok := Uncertain(); return; }
      ok := true;
    }

    /** Is the grant still what was issued, at a time the clock accepts? */
    method Inspect(r: Reading) returns (ok: bool)
      requires Valid()
      modifies this`record, clock
      ensures Valid() && Monotone()
      ensures ok ==> issued && r.valid && !clock.failed
      ensures record == old(record) || (!ok && record.unknown && !record.confirmed)
    {
      hide Legal, Lawful, NoWrite, AllDone, AllDoneBut;
      if !issued { return false; }
      ok := clock.Accept(r);
      if !ok { return; }
      var threw, yes := world.Ask();
      if threw { ok := Uncertain(); return; }
      ok := yes;
    }
  }
}
