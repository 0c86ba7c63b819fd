/** The discipline of write-ahead evidence: which logs of records and effects a careful
    composition may leave behind, whatever its parts do. */
module EvidenceLog {
  import opened WireBytes
  import opened EvidenceRecords

  datatype Effect = AcceptCustody | IssueGrant | RequestGrant | BurnGrant | UpdateJournal | CreateWorker | ResumeWorker
                  | SendFrame(stop: bool)

  /** A record handed to the sink, and whether it was preserved; or an effect. */
  datatype Mark = Kept(record: EvidenceRecord, ok: bool) | Did(effect: Effect)

  /** The record that must come right before an effect; a stop needs none. */
  function Guard(e: Effect): Option<Stage> {
    match e
    case AcceptCustody => Some(CreateIntent)
    case IssueGrant => Some(IssueIntent)
    case RequestGrant => Some(RequestIntent)
    case BurnGrant => Some(BurnIntent)
    case UpdateJournal => Some(JournalIntent)
    case CreateWorker => Some(CreateAttempt)
    case ResumeWorker => Some(ResumeAttempt)
    case SendFrame(stop) => if stop then None else Some(Ipc)
  }

  function KeptRecords(log: seq<Mark>): seq<EvidenceRecord> {
    if log == [] then []
    else
      var last := log[|log| - 1];
      KeptRecords(log[..|log| - 1]) + if last.Kept? && last.ok then [last.record] else []
  }

  ghost predicate NoneLost(log: seq<Mark>) {
    forall i | 0 <= i < |log| :: log[i].Kept? ==> log[i].ok
  }

  /** The last thing that happened is that a record of this stage was preserved. */
  predicate Marked(log: seq<Mark>, s: Stage) {
    log != [] && log[|log| - 1].Kept? && log[|log| - 1].ok && log[|log| - 1].record.stage == s
  }

  ghost predicate Permitted(log: seq<Mark>, m: Mark, h: RecordHash) {
    match m
    case Kept(r, _) =>
      NoneLost(log) && r.sequence == |KeptRecords(log)| + 1 && r.previous == LastHash(KeptRecords(log), h)
    case Did(e) =>
      (Guard(e).Some? ==> Marked(log, Guard(e).value)) && (e == CreateWorker ==> Did(CreateWorker) !in log)
  }

  ghost predicate Disciplined(log: seq<Mark>, h: RecordHash) {
    forall i | 0 <= i < |log| :: Permitted(log[..i], log[i], h)
  }

  /** The next record will have the number after writes and name previous. */
  ghost predicate Ready(log: seq<Mark>, writes: nat, previous: Option<Digest>, h: RecordHash) {
    NoneLost(log) && |KeptRecords(log)| == writes && previous == LastHash(KeptRecords(log), h)
  }

  lemma DisciplinedMore(log: seq<Mark>, m: Mark, h: RecordHash)
    requires Disciplined(log, h) && Permitted(log, m, h)
    ensures Disciplined(log + [m], h)
  {
    hide Permitted;
    var more := log + [m];
    forall i | 0 <= i < |more| ensures Permitted(more[..i], more[i], h) {
      assert more[..i] == if i < |log| then log[..i] else log;
    }
  }

  lemma KeptMore(log: seq<Mark>, m: Mark)
    ensures KeptRecords(log + [m]) == KeptRecords(log) + if m.Kept? && m.ok then [m.record] else []
  {
    assert (log + [m])[..|log|] == log;
  }

  lemma RecordKept(log: seq<Mark>, r: EvidenceRecord, ok: bool, h: RecordHash)
    requires Disciplined(log, h) && r.sequence > 0 && Ready(log, r.sequence - 1, r.previous, h)
    ensures Disciplined(log + [Kept(r, ok)], h)
    ensures ok ==> Ready(log + [Kept(r, ok)], r.sequence, Some(h(r)), h) && Marked(log + [Kept(r, ok)], r.stage)
    ensures (Did(CreateWorker) in log + [Kept(r, ok)]) == (Did(CreateWorker) in log)
  {
    hide LastHash;
    DisciplinedMore(log, Kept(r, ok), h);
    KeptMore(log, Kept(r, ok));
    LastHashMore(KeptRecords(log), r, h);
  }

  lemma LastHashMore(records: seq<EvidenceRecord>, r: EvidenceRecord, h: RecordHash)
    ensures LastHash(records + [r], h) == Some(h(r))
  {
  }

  lemma EffectDone(log: seq<Mark>, e: Effect, h: RecordHash)
    requires Disciplined(log, h) && (Guard(e).Some? ==> Marked(log, Guard(e).value))
    requires e == CreateWorker ==> Did(CreateWorker) !in log
    ensures Disciplined(log + [Did(e)], h) && KeptRecords(log + [Did(e)]) == KeptRecords(log)
    ensures forall w: nat, p :: Ready(log, w, p, h) ==> Ready(log + [Did(e)], w, p, h)
    ensures e != CreateWorker ==> (Did(CreateWorker) in log + [Did(e)]) == (Did(CreateWorker) in log)
  {
    hide LastHash;
    DisciplinedMore(log, Did(e), h);
    KeptMore(log, Did(e));
  }

  /** Every effect but a stop comes right after its own preserved record, and no record
      before it was lost. */
  lemma WriteAhead(log: seq<Mark>, h: RecordHash, i: nat)
    requires Disciplined(log, h) && i < |log| && log[i].Did? && Guard(log[i].effect).Some?
    ensures Marked(log[..i], Guard(log[i].effect).value) && NoneLost(log[..i])
  {
    hide KeptRecords, LastHash;
    assert Permitted(log[..i], log[i], h);
    assert Permitted(log[..i - 1], log[i - 1], h);
    assert log[..i][i - 1] == log[i - 1];
    assert log[..i - 1] == log[..i][..i - 1];
  }

  /** After one record was lost nothing is recorded, and nothing is done but stopping. */
  lemma NothingAfterLoss(log: seq<Mark>, h: RecordHash, i: nat, j: nat)
    requires Disciplined(log, h) && i < j < |log| && log[i].Kept? && !log[i].ok
    ensures log[j] == Did(SendFrame(true))
  {
    hide KeptRecords, LastHash;
    assert log[..j][i] == log[i];
    assert Permitted(log[..j], log[j], h);
    if log[j].Did? && Guard(log[j].effect).Some? { WriteAhead(log, h, j); }
  }

  /** What was preserved is one chain, numbered from one. */
  lemma {:induction false} ChainHolds(log: seq<Mark>, h: RecordHash)
    requires Disciplined(log, h)
    ensures Linked(KeptRecords(log), h)
  {
    hide LastHash;
    if log != [] {
      var n := |log| - 1;
      forall i | 0 <= i < n ensures Permitted(log[..n][..i], log[..n][i], h) {
        assert log[..n][..i] == log[..i];
        assert Permitted(log[..i], log[i], h);
      }
      ChainHolds(log[..n], h);
      assert Permitted(log[..n], log[n], h);
      if log[n].Kept? && log[n].ok {
        LinkedMore(KeptRecords(log[..n]), h, log[n].record);
      } else {
        assert KeptRecords(log) == KeptRecords(log[..n]);
      }
    }
  }
}
