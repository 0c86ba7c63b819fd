# Verified model of the native custody code

The Windows companion of the application keeps credentials, exchange files and
discovery files behind a small native core, and drives diagnostic workers through a
staged permission protocol. Everything it does to the system goes through narrow seams.
This project models that code over seams that may answer anything at any time, a status,
an exception or an uncertain outcome, and proves what holds all the same.

- `custody/` is the table of leases: handles, tickets, receipts, the replace-by-rename
  transaction, one-shot exchange files and write-once discovery files
  (`ProtectedObjects`, and whole runs of it in `ProtectedRuns`).
- `wire/` is the 64-byte frame protocol: little-endian fields, the 768-byte settlement
  block and its layout, the parser of each direction and the runs of frames it lets
  through (`FrameOrder`), and the worker's side of a session.
- `permission/` is the controller's side: approval, the one-shot grant, the supervisor,
  launch and pump. What was attempted and answered is one log; `PermissionLog` says
  which logs are lawful, and `PermissionRuns` what follows from that.
- `custodian/` is the process that owns the worker's handles, its hash-chained journal
  and the sealed control channel in front of it.
- `codecs/` holds DER signatures, the certificate codec with the builder of the
  to-be-signed part and an independent reader of it, and the PKCS#8 key codec.
- `crypto/` is the crypto run: its call ledger, its buffer pool and its sixteen steps.
- `evidence/` is the write-ahead evidence of the composed controller.
- `budget/` is the preparation of a root directory under an exact budget.
- `release/` is the ledger of acquired and released resources.
- `native/` is the memory discipline of the exported calls over a flat memory.

Code that changes state in place is a class here as well: its methods are proved against
a specification function or a log, and the theorems are lemmas about those. Hash
functions, the binding of a target and the hash of an identity are arbitrary functions;
nothing assumes that they have no collisions. `quiet` stands for the absence of other
processes on the disk, `honest` for a seam in which only the rename reports an unknown
commit. `dafny verify dfyconfig.toml` covers the whole project.

What the model says about the code where that may surprise:

- `begin` grants a ticket with MISSING whenever the read of an existing file, not only
  its opening, answers MISSING; the statement about an absent name is therefore tied to
  the opening.
- MISSING from the check of the discovery directory denies the lease and is not taken
  for an unbound name.
- A refused DER signature may leave its first scalar in the first half of the output;
  the second half is then clear.
- A DER length above 65535 is cut. The certificate round trip holds exactly below that.
- A settlement record with a failure name outside the tables cannot be encoded; the
  round trip is about the others.
- In the crypto run the refusals of the certificate builder and extractor, and of the
  free budget, cannot be reached.
- A preparation that is closed completely forces the budget to equal the ceiling.
- An unaligned count makes a failing wrap leave the output uncleared, unless the input
  was refused as well.

## Model

| member | source | states |
|---|---|---|
| `ProtectedRuns.Run` | windows/external_native/protected_objects.cpp:53-225 | For any calls in any order and any answers of the system: every handle ever handed out has at most one close attempt, and one without an attempt lies in exactly one field of exactly one lease; each granted serial leads to at most one delete request, through a handle open on the file it was granted for, and for a reader only after reading back exactly the bytes handed out; no exchange file is created with 32 entries present; a denied lease is never used again; a write-once name keeps its file and its bytes |
| `ProtectedRuns.Lifetime` | windows/external_native/protected_objects.cpp:86-92 | From construction to destruction no handle gets a second close attempt, and if no lease ended quarantined every handle got exactly one |
| `ProtectedRuns.CommitThenBegin` | windows/external_native/association_files.cpp:76-233 | After a successful commit the next begin on the same name returns the committed bytes, under a new ticket (no other process on the disk) |
| `ProtectedRuns.CreateThenRead` | windows/external_native/exchange_files.cpp:54-165 | What the creator of an exchange file wrote is what its reader is handed, and the serials of receipt and ticket differ |
| `ProtectedRuns.PublishThenRead` | windows/external_native/discovery_files.cpp:136-153 | A read after a successful publication returns the published bytes |
| `ProtectedRuns.PublishTwice` | windows/external_native/discovery_files.cpp:38-134 | A write-once name takes one content: a second publication of other bytes fails, and no second publication writes a file or changes what is stored; only the endpoint takes later bytes |
| `ProtectedObjects.Objects.Conservation` | windows/external_native/protected_objects.cpp:53-92 | A handle is closed at most once; while it was not, exactly one lease holds it, in one field; once it was, none does |
| `ProtectedObjects.Objects.Destroy` | windows/external_native/protected_objects.cpp:86-92 | The destructor makes the one close attempt on everything still held, except what a quarantined lease keeps |
| `ProtectedObjects.Objects.Acquire` | windows/external_native/protected_objects.cpp:129-190 | A success enters one new lease under a fresh token with the whole chain of its role, nine or five pins with the owner and protected entry each must have on one volume, and the last looks of the call found every one unchanged; a failure leaves no lease but a quarantined one |
| `ProtectedObjects.Objects.Validate` | windows/external_native/protected_objects.cpp:191-210 | A denied lease is not looked at; for any other the answer is OK exactly if the user is known and one look at each pin, in order, succeeded with the same volume and file index, the kind, owner and protected entry the pin requires, one link for a file, a fixed NTFS drive and no reparse point; otherwise the answer is that of the first look that failed, or UNAVAILABLE if it found a change, and the lease is denied for good |
| `LeaseOperations.InspectPins` | windows/external_native/protected_objects.cpp:116-128 | Looks at the pins in order up to the first that is not what it was, spelled out field by field, and is OK if and only if there is none |
| `ExchangeFiles.ExchangeDirectory` | windows/external_native/exchange_files.cpp:32-52 | A success means that the last look found the directory as it was pinned, protected, on the volume of the owner's folder and, for the app, the one of its own chain |
| `DiscoveryFiles.DiscoveryDirectory` | windows/external_native/discovery_files.cpp:20-38 | The same for the discovery directory; every failure that is no exception denies the lease |
| `ProtectedObjects.Objects.Close` | windows/external_native/protected_objects.cpp:211-225 | A success removes the lease; a failed close keeps it and denies it for good; no other lease changes |
| `ProtectedObjects.Objects.Begin` | windows/external_native/association_files.cpp:76-134 | A ticket is granted exactly with OK or MISSING, is a fresh serial, and goes with the bytes the name holds |
| `ProtectedObjects.Objects.Commit` | windows/external_native/association_files.cpp:136-233 | The ticket is spent on every path that accepted it; the result is OK or COMMIT_UNKNOWN if the rename was entered and neither otherwise (as long as no other call reports COMMIT_UNKNOWN); OK means that the name is bound to a new file holding exactly the input |
| `ProtectedObjects.Objects.Abort` | windows/external_native/association_files.cpp:234-240 | Accepts exactly the current ticket, spends it, and changes nothing on the disk; a failing close denies the lease |
| `ProtectedObjects.Objects.ExchangeCreate` | windows/external_native/exchange_files.cpp:143-153 | A receipt is handed out exactly on success, is a fresh serial granted to one slot, and the file holds the input |
| `ProtectedObjects.Objects.ExchangeRead` | windows/external_native/exchange_files.cpp:154-166 | A ticket is handed out exactly on a successful read_begin, and its grant names the bytes that were returned |
| `ProtectedObjects.Objects.ExchangeCleanup` | windows/external_native/exchange_files.cpp:255-288 | A receipt is accepted exactly if the owner carries it, is then carried by nobody, and leads to at most one delete request, on its own serial |
| `ProtectedObjects.Objects.ExchangeSettle` | windows/external_native/exchange_files.cpp:167-242 | A ticket is accepted exactly with its nonce by its unquarantined owner, is then carried by nobody, and leads to at most one delete request, only if it is consumed; an unknown deletion denies the lease |
| `ExchangeFiles.Reexamine` | windows/external_native/exchange_files.cpp:197-216 | A success means that the handle is open on the pinned file and that the last read through it returned the very bytes of the ticket |
| `ProtectedObjects.Objects.DiscoveryPublish` | windows/external_native/discovery_files.cpp:136-143 | A bound write-once name is never touched; only a name that may be published is bound; an unknown rename denies the lease |
| `ProtectedObjects.Objects.DiscoveryRead` | windows/external_native/discovery_files.cpp:144-153 | A success returns the bytes the name holds, never more than the fixed capacity |
| `WireBytes.ValueLE` | windows/external_native/diagnostics/l1_e4_protocol.h:10-19 | What put writes in k bytes get reads again, for every number that fits |
| `Settlements.DecodeEncode` | windows/external_native/diagnostics/l1_e4_protocol.h:230-348 | Whenever a record can be encoded, decoding returns every counter, limit, flag, the signed status and the names unchanged |
| `Settlements.EncodeDecode` | windows/external_native/diagnostics/l1_e4_protocol.h:280-348 | An accepted block re-encodes to itself: there is no second block of any record |
| `Settlements.EncodeSettlement` | windows/external_native/diagnostics/l1_e4_protocol.h:230-279 | The cursor over the zeroed block writes the encoding, or fails exactly for a record that cannot be sent |
| `Settlements.DecodeSettlement` | windows/external_native/diagnostics/l1_e4_protocol.h:280-348 | The section by section reader computes the decoding function |
| `DiagnosticNames.StagesDistinct` | windows/external_native/diagnostics/l1_e4_protocol.h:123-179 | The stage names that travel as indices are pairwise different, so an index stands for one name |
| `Channels.Channel.AcceptFrame` | windows/external_native/diagnostics/l1_e4_protocol.h:355-413 | The parser computes the transition function of its state, failing for good at the first frame it refuses |
| `Channels.NeverRefused` | windows/external_native/diagnostics/l1_e4_protocol.h:355-430 | A run of frames that did not fail had no frame refused anywhere in it |
| `FrameOrder.Exactly` | windows/external_native/diagnostics/l1_e4_protocol.h:350-413 | A run of frames is let through if and only if each is the rightful next one by its bytes: magic, version, its own number and the target in all of them; from the worker one hello, the samples 0 to 17 of 18 with their completed counts and none after a stop or a part, the parts 0 to 23 of 24 only after 18 samples or a stop, the last completing a block that decodes, and one stop at any time; from the controller the admission, then one acknowledgement, and one stop before it or instead |
| `FrameOrder.EachNumbered` | windows/external_native/diagnostics/l1_e4_protocol.h:356-361 | Frame i of a run that did not fail carries the four bytes of the magic, version 1, the number i + 1 and the first half of the target, and there are at most 44 from the worker and 3 from the controller |
| `FrameOrder.SamplesInTurn` | windows/external_native/diagnostics/l1_e4_protocol.h:378-384 | The samples are the frames right behind the hello: frame i is sample i - 1, and gives the calls completed by then |
| `SettlementLayout.CounterLayout` | windows/external_native/diagnostics/l1_e4_protocol.h:186-218 | Where each of the 32 counters of the ledger lies in the block, such as the attempted count in bytes 516 to 520 |
| `SettlementLayout.CallLayout` | windows/external_native/diagnostics/l1_e4_protocol.h:236-247 | The six counts of call i lie from byte 24 i on, attempted, returned, accepted, settled, unknown and failed, the seven calls of the library before the fourteen of the system |
| `SettlementLayout.LimitLayout` | windows/external_native/diagnostics/l1_e4_protocol.h:220-229 | Where each of the eight limits and times lies |
| `SettlementLayout.TailLayout` | windows/external_native/diagnostics/l1_e4_protocol.h:258-277 | The weights of the six flags, the status in two's complement, the three names by their places, four zero bytes and the digest |
| `WorkerSessions.Session.Close` | windows/external_native/diagnostics/l1_e4_admission.h:666-682 | Sends the 24 settlement parts and waits for the acknowledgement; the parser then holds the worker's record |
| `WorkerSessions.RunSession` | windows/external_native/diagnostics/l1_e4_admission.h:605-682 | For any worker behaviour, as long as no send fails, the frames of a session are all accepted in order by the controller's parser, no more than 44 of them, and a settled session leaves the worker's own record in it |
| `WorkPermission.RepliesAccepted` | windows/external_native/diagnostics/l1_e5_controller.h:230-243 | Admission, acknowledgement and stop, in the order the controller sends them, are all accepted by the worker's parser; the cap of three frames is never met |
| `GrantFlows.ClockValidator.Accept` | windows/external_native/diagnostics/l1_e4_admission.h:11-33 | A reading is accepted exactly if it agrees with all before it; one that does not closes the validator for good |
| `GrantFlows.GrantFlow.Issue` | windows/external_native/diagnostics/l1_e4_admission.h:196-236 | Issues at most once, and only on a confirmed response of the human to the hash of this very target |
| `GrantFlows.GrantFlow.Consume` | windows/external_native/diagnostics/l1_e4_admission.h:237-242 | A success means that the consumed mark was written for the observed target; a failure never confirms a consumption, and what is unknown stays unknown |
| `GrantFlows.GrantFlow.Start` | windows/external_native/diagnostics/l1_e4_admission.h:249-265 | A success means a confirmed consumption and a successful start mark for the same hash; it never makes an unconfirmed grant a confirmed one |
| `PermissionRuns.LaunchInOrder` | windows/external_native/diagnostics/l1_e4_admission.h:552-567 | The eight entries before a running worker's launch are create, token, image, dependencies, handles, resume, hello and dependencies again, each a success for the same process, behind the start mark |
| `PermissionRuns.WorkPermitted` | windows/external_native/diagnostics/l1_e5_controller.h:145-255 | A work permission was preceded, in this order and for one target, by a response agreeing to that target's hash, the successful issue, request, burn, consumed and start writes, the whole launch, and the accepted hello of that process with the approved image; the last clock reading was the controller's own, agreed with all its readings before and lies less than 30000 ms after the launch; the permission names the target's own limits |
| `PermissionRuns.AtMostOnce` | windows/external_native/diagnostics/l1_e5_controller.h:145-255 | Each write, the creation of the worker, the launch, the work permission, the acknowledgement and the stop are attempted at most once |
| `PermissionRuns.Run` | windows/external_native/diagnostics/l1_e5_controller.h:145-343 | Any sequence of begin and pump leaves a log the lemmas above apply to; a write not known to have succeeded is never reported as a consumption; the worker accepts every frame it is sent; a PASS stands for a settled, exact run |
| `Supervisors.Supervisor.Settle` | windows/external_native/diagnostics/l1_crypto_admission.h:362-440 | A started supervisor in no final phase gives UNKNOWN exactly if something is unresolved; otherwise INCONCLUSIVE exactly if the first failure, the time of the call included, is the measurement, PASS exactly without a failure, with 18 samples and an exact record, and FAIL in all other cases; the phase is then complete, or unknown |
| `AdmissionControllers.Core.Settle` | windows/external_native/diagnostics/l1_e4_admission.h:498-519 | The supervisor is given the worker's own decoded record if the channel is complete, the grant stands and the handles are closed, and its verdict is as above; in any other case it is UNKNOWN |
| `WorkPermission.Controller.Finish` | windows/external_native/diagnostics/l1_e5_controller.h:297-330 | Without a handoff the verdict is the supervisor's on the worker's record, with an end that was not normal as first failure unless there was one before; a handoff is UNKNOWN |
| `AdmissionControllers.Core.Receive` | windows/external_native/diagnostics/l1_e4_admission.h:423-483 | A hello or sample is reported accepted only while work is open, a hello only from the launched process with the approved image |
| `ControlChannels.SealedIsGenuine` | windows/external_native/diagnostics/l1_r2_adapters.cpp:17-34 | Whatever one end seals is genuine to the other and carries its payload |
| `ControlChannels.GenuineOnce` | windows/external_native/diagnostics/l1_r2_adapters.cpp:17-34 | A genuine packet determines its operation and its number, so it is genuine in no other place |
| `ControlChannels.Endpoint.Dispatch` | windows/external_native/diagnostics/l1_r2_adapters.cpp:393-447 | Answers exactly the next expected packet, with a genuine reply that says whether it went well; after one negative or missing answer nothing is done any more |
| `ControlChannels.Run` | windows/external_native/diagnostics/l1_r2_adapters.cpp:393-447 | For any stream of packets: the worker is created at most once and resumed at most once, each only when all was ready, behind a good proof of the grant and in time for the launch it states; a process on record is the created one and fits the target; every acknowledgement was asked for by a genuine packet of its own that carries the hash of the identity the custodian had found; states only advance or fall to unknown; the journal is an ordered chain of at most twelve records |
| `ControlChannels.Proxy.Call` | windows/external_native/diagnostics/l1_r2_adapters.cpp:450-463 | A success is a genuine positive reply to the packet just sent; after a failure nothing but a stop is sent |
| `CustodianLog.ResumeIsGuarded` | windows/external_native/diagnostics/l1_r2_adapters.cpp:297-310 | A resumption is the only one and follows successful token, image, dependency and handle checks, the acknowledged identity, the journaled acknowledgement and intent, a second look that found the same process, a good proof of the grant, and a reading the validator accepted inside the approved window and 30000 ms of the proven launch |
| `CustodianLog.CreationIsGuarded` | windows/external_native/diagnostics/l1_r2_adapters.cpp:257-274 | A creation is the only one, and follows the journaled attempt, a good proof of the grant, and a reading the validator accepted inside the approved window and 30000 ms of the proven launch |
| `CustodianLog.TimelyMeans` | windows/external_native/diagnostics/l1_r2_adapters.cpp:229-256 | Behind a reading in time stands a proof of the frozen target, good in every part, whose issue and present readings agreed with everything the validator had been shown, and whose launch anchors the 30000 ms |
| `CustodianLog.LastAgrees` | windows/external_native/diagnostics/l1_r2_adapters.cpp:252-256 | A reading in time agreed with everything the validator was shown before, which never failed |
| `CustodianLog.ProofInOrder` | windows/external_native/diagnostics/l1_r2_adapters.cpp:247-250 | In a good proof issue, launch and now are of one session and in this order on both clocks |
| `CustodianLog.IdentityIsGuarded` | windows/external_native/diagnostics/l1_r2_adapters.cpp:261-269 | An identity on record was found of the created process, and it fits the frozen target, unprivileged |
| `Custodians.Custodian.Weigh` | windows/external_native/diagnostics/l1_r2_adapters.cpp:229-246 | Accepts only a proof that says everything it must, and leaves the validator where the two readings of the proof leave it |
| `CustodianLog.CapsHold` | windows/external_native/diagnostics/l1_r2_adapters.cpp:200-389 | Over any run no act is attempted more often than its bound |
| `Custodians.CustodyJournal.Append` | windows/external_native/diagnostics/l1_r2_adapters.cpp:161-176 | A record is attempted once, linked to the one before; anything but a success closes the journal |
| `Scalars.BelowIsLess` | windows/external_native/diagnostics/l1_crypto_probe.h:796-801 | The byte-wise comparison with the order is the comparison of the numbers |
| `Scalars.OrderIsN` | windows/external_native/diagnostics/l1_crypto_probe.h:791-795 | The 32 constant bytes are the order of P-256 |
| `DerSignatures.MinimalUnique` | windows/external_native/diagnostics/l1_crypto_probe.h:821-842 | A number has one minimal integer body (section 8.3.2 of X.690) |
| `DerSignatures.DecodeEncode` | windows/external_native/diagnostics/l1_crypto_probe.h:821-879 | Every pair of scalars in range comes back from its encoding |
| `DerSignatures.EncodeDecode` | windows/external_native/diagnostics/l1_crypto_probe.h:843-879 | Every accepted string is the encoding of a pair in range |
| `DerSignatures.Bijection` | windows/external_native/diagnostics/l1_crypto_probe.h:796-879 | No two accepted strings stand for the same pair |
| `DerSignatures.RawSignatureToDer` | windows/external_native/diagnostics/l1_crypto_probe.h:821-842 | Encodes exactly the 64-byte pairs with both scalars in range |
| `DerSignatures.DerSignatureToRaw` | windows/external_native/diagnostics/l1_crypto_probe.h:843-879 | Accepts exactly the strings the decoding function accepts and writes its pair |
| `Certificates.RoundTrip` | windows/external_native/diagnostics/l1_crypto_probe.h:996-1075 | Extraction gives back the part and the signature a certificate was assembled from, if and only if the part is one well-formed sequence and the body fits 65535 bytes |
| `Certificates.AssembleCertificate` | windows/external_native/diagnostics/l1_crypto_probe.h:996-1014 | Assembles exactly for a part that is not empty and scalars in range |
| `Certificates.ExtractCertificate` | windows/external_native/diagnostics/l1_crypto_probe.h:1015-1075 | Accepts exactly what the extraction function accepts |
| `Certificates.CutIsBroken` | windows/external_native/diagnostics/l1_crypto_probe.h:802-819 | A body over 65535 bytes has its length cut, and the result is no node at all |
| `TbsBuilder.TbsRoundTrips` | windows/external_native/diagnostics/l1_crypto_probe.h:883-995 | Every part the builder makes, signed with anything in range, comes back from its certificate |
| `TbsBuilder.BuildTbs` | windows/external_native/diagnostics/l1_crypto_probe.h:883-995 | Refuses exactly a point that is not uncompressed and a zero serial; an independent reader finds in what is built the fields of its role, serial and point |
| `TbsBuilder.TbsRead` | windows/external_native/diagnostics/l1_crypto_probe.h:883-995 | The reader finds version 3, the number of the serial, ecdsa-with-SHA256, the one issuer name, the dates and subject of the role, P-256 with exactly the given point, and the extensions with their criticality: the issuer alone may issue, with path length 0 and the bit for signing certificates; the others sign data; the server has the purpose id-kp 1 and the address 127.0.0.1, the client the purpose id-kp 2 (sections 4.1 and 4.2 of RFC 5280) |
| `TbsBuilder.IssuedByIssuer` | windows/external_native/diagnostics/l1_crypto_probe.h:906-921 | The issuer every part names is the subject of the issuer's own part |
| `P256Keys.FourEncodings` | windows/external_native/p256_key_codec.cpp:54-81 | For each valid scalar and point exactly four strings decode to it: parameters present or not, public key present or not |
| `P256Keys.FourAreDistinct` | windows/external_native/p256_key_codec.cpp:54-81 | The four are pairwise different |
| `P256Keys.EncodedDecodes` | windows/external_native/p256_key_codec.cpp:38-81 | Decoding an encoded key returns the scalar; 138 bytes are written |
| `P256Keys.WrittenForm` | windows/external_native/p256_key_codec.cpp:38-53 | The written form, byte for byte (section 5 of RFC 5208, section 3 of RFC 5915) |
| `P256Keys.EncodeKey` | windows/external_native/p256_key_codec.cpp:38-53 | Writes the 138 bytes and nothing else, exactly for a large enough output, an uncompressed point and a scalar in range |
| `P256Keys.DecodeKey` | windows/external_native/p256_key_codec.cpp:54-81 | The cursor computes the decoding function and never reads outside the input |
| `BufferPools.BufferPool.Allocate` | windows/external_native/diagnostics/l1_crypto_probe.h:590-631 | A success adds one slot; a budget is refused only for a bad size, 45 slots, five live buffers or a missing allocator, and never along the plan |
| `BufferPools.BufferPool.Release` | windows/external_native/diagnostics/l1_crypto_probe.h:632-675 | The one release attempt of a slot; a second one is counted and frees nothing |
| `BufferPools.BufferPool.ReleaseAllRemaining` | windows/external_native/diagnostics/l1_crypto_probe.h:676-690 | Afterwards every slot has had its attempt |
| `CryptoSequences.RunCryptoSequence` | windows/external_native/diagnostics/l1_crypto_probe.h:1079-1324 | Whatever interface, clock and sampler answer: on return every buffer handed out had exactly one release attempt, allocated equals released plus live, at most five are live, no budget was refused; a zero result means 16 calls in their order, answered with 3, nine times with 0, three times with 8 for the same three signatures with one bit turned, twice with 0 and with 8 for the server in the client's role, 45 buffers and 106 calls in all; and the result is zero whenever nothing went wrong: every answer as expected, the clock, the samples and the memory within bounds, and the library's own report complete |
| `CryptoSequences.PassedIsExact` | windows/external_native/diagnostics/l1_crypto_admission.h:362-440 | A run that returned zero with 18 samples is exactly what the supervisor passes |
| `CryptoSequences.CompleteIsExact` | windows/external_native/diagnostics/l1_crypto_admission.h:362-440 | A ledger at the end of the plan with nothing unknown meets every clause of the exact settlement |
| `CryptoSequences.FreshIsUntouched` | windows/external_native/diagnostics/l1_crypto_probe.h:103-117 | A fresh ledger is where a run may start |
| `EvidenceLog.WriteAhead` | windows/external_native/diagnostics/l1_r1_wiring.cpp:333-502 | Every effect but a stop comes right after its own preserved record, with no record lost before |
| `EvidenceLog.NothingAfterLoss` | windows/external_native/diagnostics/l1_r1_wiring.cpp:180-216 | After one lost record nothing is recorded and nothing is done but stopping |
| `EvidenceLog.ChainHolds` | windows/external_native/diagnostics/l1_r1_wiring.cpp:180-216 | Preserved records are one chain, numbered from one, each linked to the hash before |
| `EvidenceRecords.BodyFits` | windows/external_native/diagnostics/l1_r2_adapters.cpp:122-158 | A serialized record with its owner and hash takes at most 2816 bytes, so that it fits its block of 8192 with the seal |
| `EvidenceRecords.PersistentEvidence.Preserve` | windows/external_native/diagnostics/l1_r2_adapters.cpp:122-158 | Acknowledges and keeps only the next linked record of its own batch and target, and never refuses such a record for what is in it; anything but an acknowledgement closes the medium for good |
| `Compositions.ControllerProcess` | windows/external_native/diagnostics/l1_r1_wiring.cpp:549-566 | Zero is returned only for a run whose last preserved record is final and a PASS; on every run the three laws above hold, and the medium never refused a record |
| `PreparationCosts.CeilingIsExact` | windows/external_native/diagnostics/l1_s1_root.cpp:66-129 | The ceiling is, in every counter, what a complete preparation spends |
| `PreparationCosts.CeilingIs` | windows/external_native/diagnostics/l1_s1_root.cpp:66-129 | The fourteen totals as polynomials in the numbers of parents, artifacts and parents of the evidence directory |
| `PreparationCosts.CeilingIsPositive` | windows/external_native/diagnostics/l1_s1_root.cpp:117-129 | Within the limits no counter of the ceiling is zero and none overflows 64 bits |
| `Preparations.Preparation.Reserve` | windows/external_native/diagnostics/l1_s1_root.cpp:237-244 | Reserves a step in all counters or stops for budget; the unsigned difference never wraps |
| `Preparations.CompleteIsExact` | windows/external_native/diagnostics/l1_s1_root.cpp:325-426 | A run with both closes attempted reserved exactly the ceiling in all 14 counters, and its budget was the ceiling |
| `Preparations.Lifetime` | windows/external_native/diagnostics/l1_s1_root.cpp:318-426 | Runs and closes in any order: never more reserved than budgeted, at most one root asked for and only behind a kept record, and no stop for budget when the budget is the ceiling |
| `ReleaseLedgers.ReleaseLedger.ReleaseOnce` | windows/external_native/diagnostics/l1_b1_unified.h:450-494 | Succeeds exactly for an entry of this owner that was not attempted before, if the system reports the release as done and nothing is settled; after the settlement nothing changes |
| `ReleaseLedgers.ReleaseLedger.Settle` | windows/external_native/diagnostics/l1_b1_unified.h:520-552 | PASS exactly if everything acquired was released and nothing is unknown, stopped, in flight, failed, attempted twice, attempted by another owner or forbidden; a second settlement gives the same verdict |
| `ReleaseLedgers.Run` | windows/external_native/diagnostics/l1_b1_unified.h:340-609 | Over any calls the counters match the entries; PASS means that something was acquired, no call was in flight, each entry had exactly one successful release, its own owner's, and each process only after its exit was seen |
| `NativeCalls.Transform` | windows/external_native/native_core.cpp:95-135 | The input is never changed; a failure zeroes exactly the due output and count and changes nothing else; a success delivers the result, zeros behind it, and its length; success is characterized by its conditions |
| `NativeCalls.OutputDueExactly` | windows/external_native/native_core.cpp:29-46 | When a failing call wipes the output: exactly if it is a span, shares nothing with the input, and the count is usable and apart, or unusable while the input was refused |
| `NativeCalls.UnalignedKeepsOutput` | windows/external_native/native_core.cpp:29-46 | A concrete unaligned count for which a failing call leaves the output as it was, although nothing is shared |
| `NativeCalls.GenerateKey` | windows/external_native/native_crypto.cpp:43-88 | Whatever the generator wrote, a failure leaves all four places as the wipes prescribe and nothing else changed; a success changes nothing outside them |
| `NativeCalls.SoundKeyIsWiped` | windows/external_native/native_crypto.cpp:43-88 | With well-sized, disjoint places a failure leaves no byte of key, point or counts |
| `NativeCalls.SignDigest` | windows/external_native/native_crypto.cpp:90-129 | Key, point and digest are never changed; a failure wipes the signature and its count wherever they can be wiped; a success changes only these |
| `NativeCalls.VerifyDigest` | windows/external_native/native_crypto.cpp:131-158 | Only the verifier's own yes on three disjoint, well-sized spans is a yes; the result is one of six codes |

## Left out

- ProtectedRuns.PublishTwice: does not say that publishing the same bytes again succeeds, because that depends on every answer of the system; it says that they are not written again.
- Concurrency: every exported call runs under its mutex and is one step here.
- Pointer and extent checks of the caller buffers of the lease table; the same kind of check is modelled over a flat memory for the wrapping, key and signature calls only.
- Recycling of file indices by the file system: an identity names one file for good.
- The file name of an exchange file as hexadecimal text: a name is its kind and identifier.
- Commit diagnostics and other observation outputs of the lease table.
- The text and hexadecimal digits of the approval prompt; the response is compared with the hash as in the code.
- The byte layouts of receipt, journal and custody records; only that they are written, in which order, and how often.
- The path and inventory checks of the fixed scope of the controller.
- The reassembly of frames from pipe chunks, and the polling budgets of the dialog.
- SHA-256 and the canonical hash builder, which are arbitrary functions here.
- The comparison of image measurements and of the consumption record's pinned objects in the custodian, which are answers of the seam.
- The detail bytes of control replies, beyond the word that says whether it went well.
- Wiping of private keys inside the crypto run. A digest stands there with the bytes it is taken of.
- That an acquisition succeeds whenever every answer is good: what a success was seen to be is stated, and for validation both directions.
- The path and pin comparisons of the preparation and the contents of its records.
- The contents of custody receipts in the composition.
- ReleaseLedgers.Run: does not model the wrap-around of the 32-bit counters, which needs as many calls.
- The local application data path and the allocation header of exported buffers.
- The offline twins `FakeGrantCell` and `B1StoreDiagnostic`, which only use what is modelled.
- The leaves behind the seams: Win32, CNG and DPAPI calls, process and pipe plumbing.
