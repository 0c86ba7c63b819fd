/** The control channel between controller and custodian: sealed packets, each answered
    once. A negative answer, like any other trouble, is the last one. */
module ControlChannels {
  import opened WireBytes
  import opened Settlements
  import opened Channels
  import opened CustodianLog
  import opened Custodians

  type Packet = p: Bytes | |p| == 512 witness Zeros(512)

  const MAX_PACKETS := 4160
  const STOP_OP := 16

  /** What both ends agree on before the first packet. */
  datatype Line = Line(target: Digest, batch: Digest, channel: Digest)

  function PacketHeader(line: Line, op: nat, number: nat): (b: Bytes)
    ensures |b| == 112
  {
    LE(0x32434853, 4) + LE(1, 2) + LE(op, 2) + LE(number, 4) + Zeros(4) + line.target + line.batch + line.channel
  }

  function Sealed(line: Line, op: nat, number: nat, payload: Bytes, h: Hash): Packet
    requires |payload| <= 256
  {
    var body := PacketHeader(line, op, number) + payload + Zeros(368 - |payload|);
    body + h(body)
  }

  /** The header is the expected one, the unused bytes are zero, the seal fits. */
  predicate Genuine(p: Packet, line: Line, op: nat, number: nat, h: Hash) {
    p[..112] == PacketHeader(line, op, number) && p[468..480] == Zeros(12) && p[480..] == h(p[..480])
  }

  /** Whatever one end seals is genuine to the other, and carries the payload. */
  lemma SealedIsGenuine(line: Line, op: nat, number: nat, payload: Bytes, h: Hash)
    requires |payload| <= 256
    ensures Genuine(Sealed(line, op, number, payload, h), line, op, number, h)
    ensures Sealed(line, op, number, payload, h)[112..112 + |payload|] == payload
  {
    hide PacketHeader;
    var header := PacketHeader(line, op, number);
    var body := header + payload + Zeros(368 - |payload|);
    var p := Sealed(line, op, number, payload, h);
    assert p[..480] == body && p[480..] == h(body) && p[..112] == header;
  }

  /** A genuine packet says which operation it asks for, and is genuine in no other place
      of the conversation. */
  lemma GenuineOnce(p: Packet, line: Line, op: nat, number: nat, h: Hash)
    requires Genuine(p, line, op, number, h) && op < 0x1_0000 && number < 0x1_0000_0000
    ensures Value(p[6..8]) == op && Value(p[8..12]) == number
  {
    hide LE, Value;
    var b := PacketHeader(line, op, number);
    assert b[6..8] == LE(op, 2) && b[8..12] == LE(number, 4);
    assert p[6..8] == p[..112][6..8] && p[8..12] == p[..112][8..12];
    ValueLE(op, 2);
    ValueLE(number, 4);
    assert Power(2) == 0x1_0000 && Power(4) == 0x1_0000_0000;
  }

  /** A packet as it arrived, its number, and the hash of the identity the custodian had
      found by then. */
  datatype Claim = Claim(request: Packet, number: nat, own: Option<Digest>)

  class Endpoint {
    const custodian: Custodian
    const line: Line
    const channelKnown: bool
    const h: Hash
    var sequence: nat
    var failed: bool
    /** Every packet on which the owner was asked to acknowledge the worker's identity. */
    ghost var claims: seq<Claim>

    constructor (custodian: Custodian, line: Line, channelKnown: bool, h: Hash)
      requires custodian.Valid() && Passed(custodian.world.log) && Guarded(custodian.world.log)
      requires Count(custodian.world.log, Acknowledgement) == 0
      ensures Valid() && this.custodian == custodian && this.line == line && this.channelKnown == channelKnown
          && this.h == h
      ensures sequence == 0 && !failed
    {
      this.custodian, this.line, this.channelKnown, this.h := custodian, line, channelKnown, h;
      sequence, failed, claims := 0, false, [];
    }

    /** While the endpoint has not failed, no check has. */
    ghost predicate Valid()
      reads this, custodian, custodian.Repr()
    {
      && custodian.Valid() && sequence <= MAX_PACKETS + (if failed then 1 else 0) && this !in custodian.Repr()
      && Guarded(custodian.world.log) && (!failed ==> Passed(custodian.world.log))
      && Claimed()
    }

    /** Every acknowledgement was asked for by a genuine packet of its own, and that packet
        carries the hash of the custodian's own identity. */
    ghost predicate Claimed()
      reads `claims, `sequence, custodian, custodian.world
    {
      Count(custodian.world.log, Acknowledgement) == |claims| && Vouched()
    }

    ghost predicate Vouched()
      reads `claims, `sequence
    {
      && (forall i | 0 <= i < |claims| ::
            Genuine(claims[i].request, line, 4, claims[i].number, h) && claims[i].own.Some?
                && claims[i].request[112..144] == claims[i].own.value)
      && (forall i, j | 0 <= i < j < |claims| :: claims[i].number < claims[j].number)
      && Numbered(sequence + 1)
    }

    ghost predicate Numbered(next: nat)
      reads `claims
    {
      forall i | 0 <= i < |claims| :: claims[i].number < next
    }

    /** The packet the conversation is waiting for. */
    predicate Expected(request: Packet, number: nat) {
      && 1 <= Value(request[6..8]) <= 16 && channelKnown && number <= MAX_PACKETS
      && Genuine(request, line, Value(request[6..8]), number, h)
    }

    /** The conversation is lost elsewhere. */
    method Lost()
      requires Valid()
      modifies this, custodian.Repr()
      ensures Valid() && failed && Fell(old(custodian.state), custodian.state)
    {
      hide Custodian.Timed, Custodian.Ledger, Custodian.Past, Custodian.Measured, Careful, Count, Tallied, InOrder,
          Open, Chained,
          Permitted, Remembered, Quiet, Passed, Guarded;
      failed := true;
      custodian.ControllerLost();
    }

    /** A larger number is new. */
    lemma Renumbered()
      requires Vouched()
      ensures Numbered(sequence + 1)
    {
    }

    /** Answers one packet: only the next expected one, only while nothing has gone wrong.
        A negative answer is given once and closes the conversation, and so does whatever
        is thrown. */
    method Dispatch(request: Packet) returns (threw: bool, answered: bool, response: Packet)
      requires Valid()
      modifies this, custodian.Repr()
      ensures Valid() && Advances(old(custodian.state), custodian.state)
      ensures old(failed) ==> failed && !answered && !threw && custodian.world.log == old(custodian.world.log)
      ensures answered ==> !threw && sequence == old(sequence) + 1 && Expected(request, sequence)
      ensures answered ==> Genuine(response, line, Value(request[6..8]), sequence, h)
                           && Value(response[112..116]) == if failed then 0 else 1
      ensures !answered ==> failed
      ensures !old(failed) && Expected(request, old(sequence) + 1) ==> threw || answered
      ensures old(claims) <= claims
    {
      hide Custodian.Timed, Custodian.Ledger, Custodian.Past, Custodian.Measured, Careful, Count, Tallied, InOrder,
          Open, Chained,
          Permitted, Remembered, Quiet, Passed, Guarded, Vouched, Genuine, Sealed, Value, LE;
      Renumbered();
      threw, answered, response := false, false, request;
      if failed { return; }
      failed := true;
      var known, op := Examine(request);
      if !known {
        custodian.ControllerLost();
        return;
      }
      var ok;
      threw, ok := Carry(op, request);
      if threw { return; }
      answered := true;
      response := Reply(op, ok);
      failed := !ok;
      if !ok { custodian.ControllerLost(); }
    }

    /** Carries the operation out, and notes the packet if it made the owner acknowledge. */
    method Carry(op: nat, request: Packet) returns (threw: bool, ok: bool)
      requires custodian.Valid() && 1 <= op <= 16 && Guarded(custodian.world.log) && Passed(custodian.world.log)
      requires this !in custodian.Repr() && Claimed() && Numbered(sequence) && Genuine(request, line, op, sequence, h)
      modifies this`claims, custodian.Repr()
      ensures custodian.Valid() && Guarded(custodian.world.log) && (!threw && ok ==> Passed(custodian.world.log))
      ensures Advances(old(custodian.state), custodian.state)
      ensures Claimed() && old(claims) <= claims
    {
      hide Custodian.Timed, Custodian.Ledger, Custodian.Past, Custodian.Measured, Passed, Guarded, Genuine, Count;
      ghost var own, asked := custodian.idHash(custodian.identity), Count(custodian.world.log, Acknowledgement);
      threw, ok := Execute(op, request);
      if Count(custodian.world.log, Acknowledgement) != asked { claims := claims + [Claim(request, sequence, own)]; }
    }

    method Examine(request: Packet) returns (known: bool, op: nat)
      requires sequence <= MAX_PACKETS
      modifies this`sequence
      ensures op == Value(request[6..8]) && known == Expected(request, old(sequence) + 1)
      ensures sequence == old(sequence) + if 1 <= op <= 16 then 1 else 0
      ensures old(Vouched()) ==> Vouched()
    {
      hide Genuine, Value;
      op := Get(request, 6, 2);
      known := 1 <= op <= 16;
      if known {
        sequence := sequence + 1;
        known := sequence <= MAX_PACKETS && channelKnown && Genuine(request, line, op, sequence, h);
      }
    }

    /** The reply: whether it went well, and 76 bytes of detail. */
    method Reply(op: nat, ok: bool) returns (response: Packet)
      ensures Genuine(response, line, op, sequence, h) && Value(response[112..116]) == if ok then 1 else 0
    {
      hide Genuine, LE, Value;
      var detail: Bytes := *;
      if |detail| != 76 { detail := Zeros(76); }
      var word := LE(if ok then 1 else 0, 4);
      SealedIsGenuine(line, op, sequence, word + detail, h);
      response := Sealed(line, op, sequence, word + detail, h);
      assert response[112..116] == response[112..192][..4] == (word + detail)[..4] == word;
      assert Power(4) == 0x1_0000_0000;
      ValueLE(if ok then 1 else 0, 4);
    }

    /** The owner is asked to acknowledge an identity at most once by an operation, by that
        one operation alone, and only if the packet named the custodian's own. */
    predicate Acknowledged(op: nat, request: Packet, own: Option<Digest>, before: nat, after: nat) {
      after == before || (op == 4 && after == before + 1 && own.Some? && request[112..144] == own.value)
    }

    method Execute(op: nat, request: Packet) returns (threw: bool, ok: bool)
      requires custodian.Valid() && 1 <= op <= 16 && Guarded(custodian.world.log) && Passed(custodian.world.log)
      modifies custodian.Repr()
      ensures custodian.Valid() && Guarded(custodian.world.log) && (!threw && ok ==> Passed(custodian.world.log))
      ensures Advances(old(custodian.state), custodian.state)
      ensures Acknowledged(op, request, custodian.idHash(old(custodian.identity)),
                           Count(old(custodian.world.log), Acknowledgement),
                           Count(custodian.world.log, Acknowledgement))
    {
      hide Custodian.Timed, Custodian.Ledger, Custodian.Past, Custodian.Measured, Passed, Guarded;
      if op <= 8 { threw, ok := Early(op, request); } else { threw, ok := Late(op); }
    }

    method Early(op: nat, request: Packet) returns (threw: bool, ok: bool)
      requires custodian.Valid() && 1 <= op <= 8 && Guarded(custodian.world.log) && Passed(custodian.world.log)
      modifies custodian.Repr()
      ensures custodian.Valid() && Guarded(custodian.world.log) && (!threw && ok ==> Passed(custodian.world.log))
      ensures Advances(old(custodian.state), custodian.state)
      ensures Acknowledged(op, request, custodian.idHash(old(custodian.identity)),
          Count(old(custodian.world.log), Acknowledgement), Count(custodian.world.log, Acknowledgement))
    {
      hide Custodian.Timed, Custodian.Ledger, Custodian.Past, Custodian.Measured, Careful, Count, Tallied, InOrder,
          Open, Chained,
          Permitted, Remembered, Quiet, Passed, Guarded;
      threw, ok := false, false;
      if op > 4 {
        threw, ok := Question(op);
      } else if op == 1 {
        ok := custodian.AcceptIntent(custodian.frozen);
      } else if op == 2 {
        threw, ok := custodian.Create();
      } else if op == 3 {
        var p := custodian.ProcessIdentity();
        ok := p.pid != 0;
      } else {
        var p := custodian.ProcessIdentity();
        var named := custodian.idHash(p);
        if named.Some? && request[112..144] == named.value { threw, ok := custodian.AcknowledgeIdentity(p); }
      }
    }

    /** The four checks of the suspended worker. */
    method Question(op: nat) returns (threw: bool, ok: bool)
      requires custodian.Valid() && 4 < op <= 8 && Guarded(custodian.world.log) && Passed(custodian.world.log)
      modifies custodian.Repr()
      ensures custodian.Valid() && Guarded(custodian.world.log) && (!threw && ok ==> Passed(custodian.world.log))
      ensures Advances(old(custodian.state), custodian.state)
      ensures Count(custodian.world.log, Acknowledgement) == Count(old(custodian.world.log), Acknowledgement)
    {
      hide Custodian.Timed, Custodian.Ledger, Custodian.Past, Custodian.Measured, Careful, Count, Tallied, InOrder,
          Open, Chained,
          Permitted, Remembered, Quiet, Passed, Guarded;
      if op == 5 {
        threw, ok := custodian.Token();
      } else if op == 6 {
        threw, ok := custodian.Image();
      } else if op == 7 {
        threw, ok := custodian.Dependencies();
      } else {
        threw, ok := custodian.Handles();
      }
    }

    method Late(op: nat) returns (threw: bool, ok: bool)
      requires custodian.Valid() && 8 < op <= 16 && Guarded(custodian.world.log) && Passed(custodian.world.log)
      modifies custodian.Repr()
      ensures custodian.Valid() && Guarded(custodian.world.log) && (!threw && ok ==> Passed(custodian.world.log))
      ensures Advances(old(custodian.state), custodian.state)
      ensures Count(custodian.world.log, Acknowledgement) == Count(old(custodian.world.log), Acknowledgement)
    {
      hide Custodian.Timed, Custodian.Ledger, Custodian.Past, Custodian.Measured, Careful, Count, Tallied, InOrder,
          Open, Chained,
          Permitted, Remembered, Quiet, Passed, Guarded;
      threw, ok := false, false;
      if op == 9 {
        var known;
        threw, ok, known := custodian.Resume();
      } else if op == 10 {
        threw, ok := custodian.Hello();
      } else if op == 11 {
        threw, ok := custodian.Observe();
      } else if op == 12 {
        threw, ok := custodian.Next();
      } else if op == 13 {
        threw, ok := custodian.Send();
      } else if op == 14 {
        threw, ok := custodian.CloseObservedExit();
      } else if op == 15 {
        threw, ok := custodian.CloseOwnedIo();
      } else {
        custodian.ControllerLost();
        ok := true;
      }
    }
  }

  /** Any stream of packets, genuine or not, and any losses in between: the worker is
      created at most once and resumed at most once, each only when all was ready for it,
      behind a good proof of the consumed grant and within an execution of the launch it
      states, by a clock that agreed with all it was shown; a process on record is the
      created one and fits the frozen target; the custody state only advances or falls to unknown;
          and the journal is a chain of
      states in their order, at most twelve of them. */
  method Run(endpoint: Endpoint)
    requires endpoint.Valid()
    modifies endpoint, endpoint.custodian.Repr()
    ensures endpoint.Valid() && Advances(old(endpoint.custodian.state), endpoint.custodian.state)
    ensures old(endpoint.failed) ==> endpoint.failed
    ensures var log, charge := endpoint.custodian.world.log, endpoint.custodian.world.charge;
            && (forall i | 0 <= i < |log| && log[i].ResumedWorker? :: ReadyToResume(log[..i], charge))
            && charge == Charge(endpoint.custodian.frozen, endpoint.custodian.idHash)
            && (forall i | 0 <= i < |log| && log[i].CreatedWorker? ::
                  Recorded(Attempt, true) in log[..i] && TimelyByProof(log[..i], charge))
            && (forall i | 0 <= i < |log| && log[i] == Recorded(Identified, true) ::
                  exists p: Identity :: Found(log[..i], p) && FitsCharge(charge, p))
            && Count(log, Creation) <= 1 && Count(log, Resumption) <= 1
    // Every acknowledgement of the worker's identity was asked for by a genuine packet of
    // its own, which carries the hash of the very identity the custodian had found.
    ensures Count(endpoint.custodian.world.log, Acknowledgement) == |endpoint.claims| && endpoint.Vouched()
    ensures var journal := endpoint.custodian.journal;
            Chained(journal.entries, journal.hash) && InOrder(journal.entries) && journal.count <= 12
  {
    var custodian := endpoint.custodian;
    Serve(endpoint);
    hide Chained, InOrder, Tallied, Remembered, ReadyToResume, TimelyByProof, Careful, Guarded, Count, Found,
        FitsCharge;
    ghost var log, charge := custodian.world.log, custodian.world.charge;
    forall i | 0 <= i < |log| && log[i].ResumedWorker? ensures ReadyToResume(log[..i], charge) {
      ResumeIsGuarded(log, charge, i);
    }
    forall i | 0 <= i < |log| && log[i].CreatedWorker?
      ensures Recorded(Attempt, true) in log[..i] && TimelyByProof(log[..i], charge)
    {
      CreationIsGuarded(log, charge, i);
    }
    forall i | 0 <= i < |log| && log[i] == Recorded(Identified, true)
      ensures exists p: Identity :: Found(log[..i], p) && FitsCharge(charge, p)
    {
      IdentityIsGuarded(log, charge, i);
    }
    CapsHold(log, charge, Creation);
    CapsHold(log, charge, Resumption);
  }

  /** Any packet at all. */
  method Arrive() returns (p: Packet)
  {
    p := *;
  }

  method Serve(endpoint: Endpoint)
    requires endpoint.Valid()
    modifies endpoint, endpoint.custodian.Repr()
    ensures endpoint.Valid() && Advances(old(endpoint.custodian.state), endpoint.custodian.state)
    ensures old(endpoint.failed) ==> endpoint.failed
  {
    hide Custodian.Timed, Custodian.Ledger, Custodian.Past, Custodian.Measured, Careful, Count, Tallied, InOrder,
        Open, Chained,
        Permitted, Remembered, Quiet, Passed, Guarded;
    var steps: int := *;
    for i := 0 to if steps < 0 then 0 else steps
      invariant endpoint.Valid() && Advances(old(endpoint.custodian.state), endpoint.custodian.state)
      invariant old(endpoint.failed) ==> endpoint.failed
    {
      var choice: int := *;
      if choice == 0 {
        endpoint.Lost();
      } else if choice == 1 {
        endpoint.failed := true;
        endpoint.custodian.CustodianLost();
      } else {
        var request := Arrive();
        var threw, answered, response := endpoint.Dispatch(request);
      }
    }
  }

  // ----- the controller's end

  /** What was sent: the packets in order, numbered from one, and once one exchange has
      failed at most a single stop. */
  class Proxy {
    const line: Line
    const h: Hash
    var sequence: nat
    var failed: bool
    var lost: bool
    var reply: Packet
    /** The operation and number of every packet that was handed over. */
    ghost var sent: seq<(nat, nat)>
    /** How many had been handed over when an exchange first failed. */
    ghost var before: nat

    constructor (line: Line, h: Hash)
      ensures Valid() && this.line == line && this.h == h && sent == [] && !failed && !lost
    {
      this.line, this.h := line, h;
      sequence, failed, lost, reply, sent, before := 0, false, false, Zeros(512), [], 0;
    }

    ghost predicate Numbered()
      reads `sequence, `sent
    {
      && (forall i | 0 <= i < |sent| :: 0 < sent[i].1 <= sequence && sent[i].1 <= MAX_PACKETS)
      && (forall i, j | 0 <= i < j < |sent| :: sent[i].1 < sent[j].1)
    }

    ghost predicate Valid()
      reads this
    {
      && Numbered() && before <= |sent|
      && (failed ==> |sent| <= before + 1)
      && (failed && !lost ==> |sent| == before)
      && (failed && |sent| == before + 1 ==> sent[before].0 == STOP_OP)
    }

    /** One exchange. Only a stop is ever sent after a failure. */
    method Call(op: nat, payload: Bytes) returns (threw: bool, ok: bool)
      requires Numbered() && 1 <= op <= 16
      modifies this`sequence, this`failed, this`reply, this`sent
      ensures Numbered() && (threw ==> !ok) && old(sent) <= sent && |sent| <= |old(sent)| + 1
      ensures |sent| == |old(sent)| + 1 ==> sent[|old(sent)|] == (op, sequence)
      ensures old(failed) && op != STOP_OP ==> !ok && sent == old(sent)
      ensures ok ==>
          !failed && sent == old(sent) + [(op, sequence)] && Genuine(reply, line, op, sequence, h)
          && Value(reply[112..116]) == 1
      ensures !ok && sent != old(sent) ==> failed
      ensures old(failed) && !ok ==> failed
    {
      hide Genuine, LE, Value, Sealed;
      threw, ok := false, false;
      if (failed && op != STOP_OP) || |payload| > 256 { return; }
      sequence := sequence + 1;
      if sequence > MAX_PACKETS { return; }
      failed := true;
      var p := Sealed(line, op, sequence, payload, h);
      var checked: bool := *;
      if !checked { return; }
      sent := sent + [(op, sequence)];
      threw, ok := Answered(op);
    }

    /** The other end's answer, or whatever arrives in its place. */
    method Answered(op: nat) returns (threw: bool, ok: bool)
      requires failed
      modifies this`reply, this`failed
      ensures (threw ==> !ok) && failed == !ok
      ensures ok ==> Genuine(reply, line, op, sequence, h) && Value(reply[112..116]) == 1
    {
      hide Genuine, LE, Value;
      var answer: Bytes;
      threw, ok, answer := *, *, *;
      if threw || !ok || |answer| != 512 { return threw, false; }
      reply := answer;
      var positive := Get(reply, 112, 4);
      ok := Genuine(reply, line, op, sequence, h) && positive == 1;
      failed := !ok;
    }

    /** Any ordinary operation. */
    method Exchange(op: nat, payload: Bytes) returns (threw: bool, ok: bool)
      requires Valid() && 1 <= op < STOP_OP
      modifies this
      ensures Valid() && lost == old(lost) && old(sent) <= sent
          && (old(failed) ==> failed && !ok && sent == old(sent) && before == old(before))
      ensures ok ==> !failed && Genuine(reply, line, op, sequence, h) && Value(reply[112..116]) == 1
    {
      hide Genuine, LE, Value, Numbered;
      ghost var broken := failed;
      threw, ok := Call(op, payload);
      if !broken { before := |sent|; }
    }

    /** Best effort, once: tells the other end to stop, and never speaks again. */
    method ControllerLost()
      requires Valid()
      modifies this
      ensures Valid() && lost && (old(lost) ==> sent == old(sent) && failed == old(failed))
      ensures !old(lost) ==> failed && (sent == old(sent) || sent == old(sent) + [(STOP_OP, sequence)])
    {
      hide Genuine, LE, Value, Numbered;
      if lost { return; }
      lost := true;
      if !failed { before := |sent|; }
      var threw, ok := Call(STOP_OP, []);
      failed := true;
    }
  }
}
