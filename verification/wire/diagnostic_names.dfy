/** The only diagnostic names that go on the wire, as their position in a fixed table. A
    name outside its table cannot be sent; no name stands in a table twice. */
module DiagnosticNames {
  const GENERAL: seq<string> := [
    "none", "abi_call_budget_exceeded", "deadline_exceeded", "resource_observation_invalid",
    "resource_budget_exceeded", "resource_observation_failed", "call_budget_exceeded",
    "forbidden_symbol_resolution", "symbol_lookup_exception", "missing_allowed_symbol",
    "buffer_alloc_precondition", "buffer_alloc_exception", "buffer_alloc_null", "unknown_buffer_slot",
    "duplicate_buffer_release", "free_budget_unsettled", "buffer_release_unknown", "native_budget",
    "duplicate_or_unowned_release", "supervisor_stop", "before_work", "after_final_settlement"
  ]

  /** The planned steps of the crypto run, in order. */
  const STEPS: seq<string> := [
    "abi", "gen_issuer", "gen_server", "gen_client", "sign_issuer_cert", "sign_server_cert",
    "sign_client_cert", "verify_issuer_valid", "verify_server_valid", "verify_client_valid",
    "verify_issuer_tampered", "verify_server_tampered", "verify_client_tampered", "policy_server_valid",
    "policy_client_valid", "policy_role_mismatch"
  ]

  /** The native operations, in order. */
  const NATIVE: seq<string> := [
    "provider_open", "key_generate", "key_finalize", "key_export", "key_import", "sign", "verify",
    "provider_close", "key_destroy", "certificate_create", "certificate_free", "decode", "local_free", "time"
  ]

  const STAGES: seq<string> := GENERAL + STEPS + NATIVE

  const CODES: seq<string> := [
    "NONE", "BUDGET_EXCEEDED", "MEASUREMENT_UNAVAILABLE", "SETTLEMENT_UNKNOWN", "SECURITY_REJECT_MISMATCH",
    "ADMISSION_BLOCKED", "UNAUTHORIZED_ACCESS", "ARTIFACT_INVALID", "OWNERSHIP_UNKNOWN"
  ]

  /** The first position of s, or the length of the list. */
  function Position(list: seq<string>, s: string): (i: nat)
    ensures i <= |list|
    ensures i < |list| ==> list[i] == s
    ensures i == |list| <==> s !in list
  {
    if list == [] then 0 else if list[0] == s then 0 else 1 + Position(list[1..], s)
  }

  method StringId(list: seq<string>, s: string) returns (found: bool, id: nat)
    ensures found <==> s in list
    ensures found ==> id == Position(list, s)
  {
    id := 0;
    while id < |list| && list[id] != s
      invariant id <= |list| && id + Position(list[id..], s) == Position(list, s)
      invariant forall j | 0 <= j < id :: list[j] != s
    {
      id := id + 1;
    }
    found := id < |list|;
  }

  ghost predicate Distinct(list: seq<string>) {
    forall i, j | 0 <= i < j < |list| :: list[i] != list[j]
  }

  /** In a table without repetition every name is found where it stands. */
  lemma {:induction false} PositionOfEntry(list: seq<string>, i: nat)
    requires Distinct(list) && i < |list|
    ensures Position(list, list[i]) == i
  {
    if i > 0 {
      PositionOfEntry(list[1..], i - 1);
      assert list[0] != list[i];
    }
  }

  // ----- the tables are distinct: by a number that no two names share

  function Key(s: string): int {
    if |s| < 3 then 0 else if |s| < 8 then s[2] as int else (|s| * 128 + s[4] as int) * 128 + s[7] as int
  }

  const GENERAL_KEYS: seq<int> := [
    110, 405996, 292453, 473829, 408293, 457445, 339940, 455909, 391148, 373983, 422625, 373473, 291553,
    325599, 406772, 356324, 373490, 228194, 472308, 260467, 194935, 375145
  ]
  const STEP_KEYS: seq<int> := [
    105, 177397, 178678, 176613, 274419, 274418, 274409, 324457, 324467, 324451, 373609, 373619, 373603,
    324083, 324067, 340466
  ]
  const NATIVE_KEYS: seq<int> := [
    226546, 209893, 209761, 176879, 177391, 103, 114, 242930, 193140, 308451, 275683, 99, 177778, 109
  ]
  const CODE_KEYS: seq<int> := [
    78, 254661, 387789, 304709, 403801, 289231, 322130, 271188, 289097
  ]

  ghost predicate Keyed(list: seq<string>, keys: seq<int>) {
    |list| == |keys| && forall i | 0 <= i < |list| :: Key(list[i]) == keys[i]
  }

  ghost predicate Apart(a: seq<int>, b: seq<int>) {
    forall i, j | 0 <= i < |a| && 0 <= j < |b| :: a[i] != b[j]
  }

  ghost predicate AllApart(a: seq<int>) {
    forall i, j | 0 <= i < j < |a| :: a[i] != a[j]
  }

  lemma GeneralKeyed() ensures Keyed(GENERAL, GENERAL_KEYS) { }

  /** Where a key stands among the general ones. */
  function GeneralRank(key: int): int {
    if key == 110 then 0
    else if key == 405996 then 1
    else if key == 292453 then 2
    else if key == 473829 then 3
    else if key == 408293 then 4
    else if key == 457445 then 5
    else if key == 339940 then 6
    else if key == 455909 then 7
    else if key == 391148 then 8
    else if key == 373983 then 9
    else if key == 422625 then 10
    else if key == 373473 then 11
    else if key == 291553 then 12
    else if key == 325599 then 13
    else if key == 406772 then 14
    else if key == 356324 then 15
    else if key == 373490 then 16
    else if key == 228194 then 17
    else if key == 472308 then 18
    else if key == 260467 then 19
    else if key == 194935 then 20
    else if key == 375145 then 21
    else -1
  }

  lemma GeneralRanked()
    ensures |GENERAL_KEYS| == 22 && forall i | 0 <= i < 22 :: GeneralRank(GENERAL_KEYS[i]) == i
  {
  }

  lemma GeneralApart()
    ensures AllApart(GENERAL_KEYS)
  {
    hide GENERAL_KEYS, GeneralRank;
    GeneralRanked();
  }

  lemma StepsKeyed() ensures Keyed(STEPS, STEP_KEYS) && AllApart(STEP_KEYS) { }

  lemma NativeKeyed() ensures Keyed(NATIVE, NATIVE_KEYS) && AllApart(NATIVE_KEYS) { }

  lemma CodesKeyed() ensures Keyed(CODES, CODE_KEYS) && AllApart(CODE_KEYS) { }

  lemma GeneralFromSteps() ensures Apart(GENERAL_KEYS, STEP_KEYS) { }

  lemma GeneralFromNative() ensures Apart(GENERAL_KEYS, NATIVE_KEYS) { }

  lemma StepsFromNative() ensures Apart(STEP_KEYS, NATIVE_KEYS) { }

  lemma StagesDistinct()
    ensures Distinct(STAGES) && |STAGES| == 52
  {
    assert |GENERAL| == 22 && |STEPS| == 16 && |NATIVE| == 14;
    hide GENERAL, STEPS, NATIVE, GENERAL_KEYS, STEP_KEYS, NATIVE_KEYS, Key;
    GeneralKeyed();
    GeneralApart();
    StepsKeyed();
    NativeKeyed();
    GeneralFromSteps();
    GeneralFromNative();
    StepsFromNative();
  }

  lemma CodesDistinct()
    ensures Distinct(CODES) && |CODES| == 9
  {
    CodesKeyed();
  }
}
