# A model of the robot-md gateway's evidence, with proofs

The gateway decides whether a request may move a robot, and it produces evidence of what it decided: an
ordered export of signed records, a hash-linked audit chain, signed receipts, and an off-box copy of the
export. This project models those parts and proves how they agree with each other: what the writer of a log
leaves is set against what the independent verifier reads back, whatever crashed in between; interleaved
requests are set against one writer; the shipper's offset against the acknowledgements it stands for; the
policies against every way a request could be relabelled, replayed or delayed.

`dafny verify dfyconfig.toml` checks all of it.

## How it is laid out

| file | subject |
|---|---|
| `Bytes.dfy` | byte strings and their lines: split, strip, trailing newline |
| `Trace.dfy` | records, the codec laws, the head file, and the writer of one export (`class TraceExport`) |
| `Walk.dfy` | the verifier's walk: its loop, and the fold that specifies it |
| `WalkMeaning.dfy` | what a walk's verdict means for the file; tamper evidence |
| `FaultRuns.dfy` | runs with crashes between head and line, torn lines and lost heads |
| `CodecWitness.dfy` | a concrete codec that keeps the laws, so the theorems about lawful codecs are not empty |
| `Audit.dfy` | the audit chain and the loop that checks an exported one |
| `Invokes.dfy` | any number of requests interleaving under the two log locks |
| `InvokeProgram.dfy` | each interleaved request against a single pass through `/v1/invoke` |
| `Floor.dfy` | interleaved requests that share the gateway's memory: gates, logs and dispatch at once |
| `Crashes.dfy` | interleaved requests in a process that can die at any moment, over files that lose their head |
| `Naming.dfy` | whom the walk of a live export names as a dispatch that never reported |
| `Shipper.dfy` | the shipper as a process with crash points, and one poll of it |
| `Replay.dfy`, `Revocation.dfy`, `Safety.dfy`, `Gates.dfy` | the bounded windows, caches, latches and label-reading policies |
| `Gateway.dfy` | one pass through `/v1/invoke`, with its gates, memory and records |
| `GateMeaning.dfy` | what each gate refuses and what a dispatch takes, in the request's own terms |
| `Sessions.dfy` | whole sessions of the gateway against its replay window |
| `Hil.dfy` | the hardware-in-the-loop harness against a model gateway |
| `Receipt.dfy` | receipts in every emitted shape and what the receipt verifier makes of them |
| `Preflight.dfy`, `PreflightRun.dfy` | the preflight's findings and verdicts, and the object that collects them |
| `PreflightFindings.dfy` | why a preflight says what it says, finding by finding |

Code that changes things in place (the export writer, the audit chain, the receiver, the caches, the safety
monitor, the shipper, the preflight) is modelled by classes and methods with loops; each is proved against a
function of the old state, and the theorems are about those functions. Concurrency is a state machine: a
schedule is any sequence of turns, and a theorem about reachable states holds after every schedule.

SHA-256 is idealised as an injective function that never returns the genesis value; Ed25519 (RFC 8032) as a
signature that verifies under its own key and over its own value only; canonical JSON as a codec with three
laws: a record reads back as itself, is one line, and is not JSON once cut short (`Trace.Codec`). UTF-8 decoding
is idealised as giving different text for different bytes (`Receipt.Texts`).

## Where code and documentation part

The model follows the code in each case.

- `src/robot_md_gateway/attestation.py:463-465` promises that every way a record can be lost is named by the
  next line or by the walk, and lines 427-428 that a walk reports a head one ahead of the file. The walk never
  reads the head, so a loss is reported only once another record has been written on top of it, and never if
  the head was lost while the export held no line. `FaultRuns.UnreportedIff` is the exact condition for every
  run and `FaultRuns.OneLossUnreportedIff` the one for a single lost record; `FaultRuns.LastRecordLost` (a
  crash before the last line) and `FaultRuns.HeadLostBesideNothing` (a lost first record) are inputs at which
  the promise fails.
- The walk's message says that no outcome line follows an intent (`scripts/verify_receipt.py:378-382`), and
  `README.md:97-99` that it names every dispatch that never reported. The code asks only whether the file holds
  an outcome line with that corr_id, from any request, before or after (`WalkMeaning.NamedExactly`). A client
  that retries a dispatch in flight is denied by the replay gate, and the denial's outcome line takes the
  dispatch off the list (`Naming.RetryHidesADispatch`, from any state such as `Naming.ADispatchInFlight`).
  `Naming.NamedIff` says exactly who is named in every reachable state, `Naming.UnnamedIff` exactly when a
  dispatch in flight is not; `Crashes.TheDeadAreNamed` says the same across process deaths.
- Two failure-free files that end in the same line need not share a history when that line is a torn,
  unreadable tail, because the walk checks no link on it. `WalkMeaning.FixesHistoryIffReadable` shows that
  this is the only exception.

## Model

| member | source | states |
|---|---|---|
| `Trace.CutWrite` | src/robot_md_gateway/attestation.py:547-562 | a write cut off at any byte leaves every earlier line as it was and adds either nothing, a proper prefix of the record as a line of its own, or the whole record; a torn line is never welded to the next record |
| `Trace.WholeWrite` | src/robot_md_gateway/attestation.py:551-562 | a completed append adds exactly the record's canonical bytes as the last line, whatever state the tail was in |
| `Bytes.SplitJoins` | src/robot_md_gateway/attestation.py:324-330 | the segments a file is split into, joined by newlines again, are the file |
| `Trace.BelowOneIsNoNumber` | src/robot_md_gateway/attestation.py:339-350 | a file whose lines carry no seq of at least 1 is unnumbered history: the next record is number 1 with that note, bound to the last line |
| `Trace.LinkMeans` | src/robot_md_gateway/attestation.py:373-421 | what each chain note says about the files it was made from, both ways: no note, head lost beside a numbered last line, beside a torn one, beside lines never numbered; beside lines the link binds the physically last one and continues the last readable number |
| `Trace.TraceExport.LastNumber` | src/robot_md_gateway/attestation.py:417-420 | the backwards scan finds the number of the last line that carries one, past any unreadable lines |
| `Trace.TraceExport.NextTraceLink` | src/robot_md_gateway/attestation.py:373-421 | the next link is the one the specification names: head first, then the last line, then the last readable number, then a fresh start |
| `Trace.TraceExport.AppendTraceLine` | src/robot_md_gateway/attestation.py:539-563 | one append turns the two files into the ones the specification names, and returns the record written |
| `Walk.WalkLines` | scripts/verify_receipt.py:260-365 | the walking loop computes the fold of one-line steps, with the torn-tail rule on the last line only |
| `WalkMeaning.WalkExport` | scripts/verify_receipt.py:247-407 | a file's bytes walked: it exits 1 if and only if some line is a hole, 3 if and only if none is and something is open (a remark, an unnumbered line, an id with an intent line and no outcome line), 0 otherwise; the failures are exactly the holes |
| `WalkMeaning.NoFailureIffWhole` | scripts/verify_receipt.py:268-365 | a walk finds no failure if and only if the readable lines are an unnumbered head followed by consecutively numbered lines, each bound to the line above |
| `WalkMeaning.FailuresExact` | scripts/verify_receipt.py:268-346 | a failure is reported if and only if it is a real hole: unreadable line, non-object, numbering stopped, gap or chain break, at its own line and with its own numbers |
| `WalkMeaning.RemarksExact` | scripts/verify_receipt.py:272-363 | a finding on a line is reported if and only if the line is a torn tail, a first line bound elsewhere, or carries that chain note |
| `WalkMeaning.NamedExactly` | scripts/verify_receipt.py:291-297 | the corr_ids named as "dispatch never reported" are exactly those with an intent line and no outcome line |
| `WalkMeaning.NeverReportedExact` | scripts/verify_receipt.py:291-382 | a dispatch is reported open at line n if and only if n is the first intent line with its corr_id and no line holds an outcome with it |
| `WalkMeaning.UnnumberedExact` | scripts/verify_receipt.py:366-374 | the number of unnumbered lines is reported if and only if it is positive and counts exactly the lines without a seq before the first numbered one |
| `WalkMeaning.OpenDispatchesRise` | scripts/verify_receipt.py:376-382 | open dispatches are reported in the order of their lines, each once per line |
| `WalkMeaning.QuietIffUnmarked` | scripts/verify_receipt.py:329-374 | nothing is reported beyond open dispatches if and only if every line is numbered and bound from the first on and none carries a chain note |
| `WalkMeaning.ExitWholeIff` | scripts/verify_receipt.py:367-407 | the exact set of files that exit 0 |
| `WalkMeaning.ExitCodesMean` | scripts/verify_receipt.py:385-402 | each of the exit codes 0, 1 and 3, by what is in the file |
| `WalkMeaning.TamperEvidence` | scripts/verify_receipt.py:299-365 | two files that exit 0 and end in the same line are identical line for line |
| `WalkMeaning.SameLastLineSameHistory` | scripts/verify_receipt.py:299-365 | two failure-free files that end in the same readable line agree backwards through the numbered region and the last unnumbered line, as far as the shorter goes |
| `WalkMeaning.FixesHistoryIffReadable` | scripts/verify_receipt.py:269-285 | a last line fixes the history above it if and only if it is readable JSON; under any torn tail two different histories both pass |
| `CodecWitness.LawfulCodecExists` | src/robot_md_gateway/attestation.py:546-561 | some codec keeps all three laws assumed of canonical JSON, although every record holds the digest of the line above it |
| `FaultRuns.NoSilentFault` | src/robot_md_gateway/attestation.py:399-421 | after any run of appends, crashes between head and line, torn lines and head losses from an empty file, the walk is quiet if and only if no line was torn and no record was written on top of damage; otherwise it does not exit 0 |
| `FaultRuns.ReportsStay` | src/robot_md_gateway/attestation.py:539-563 | once a fault is reported, no later run of events brings the walk back to exit 0 |
| `FaultRuns.FaultFree` | src/robot_md_gateway/attestation.py:539-563 | a run in which every append was recorded walks without failures, and its only findings are dispatches that never reported |
| `FaultRuns.UnreportedIff` | src/robot_md_gateway/attestation.py:424-431 | a run goes unreported if and only if every record and head it lost is unseen: no line torn, and nothing recorded after the loss before the run ended or a lineless history was forgotten |
| `FaultRuns.OneLossUnreportedIff` | src/robot_md_gateway/attestation.py:427-428 | for a run that lost one record and nothing else: the loss is unreported if and only if no later record was written before the run ended or the history was forgotten |
| `FaultRuns.LastRecordLost` | src/robot_md_gateway/attestation.py:427-428 | a crash before the last line leaves a head one ahead of the file and a quiet walk |
| `FaultRuns.HeadLostBesideNothing` | src/robot_md_gateway/attestation.py:402-404 | a record lost for good: when the head is lost too while the export holds no line, the next record is an ordinary first one, numbered 1 with no note, and the walk is quiet |
| `FaultRuns.FailuresPersist` | scripts/verify_receipt.py:268-289 | no later line repairs a failed walk, and a torn tail that was a finding becomes a failure once any line follows |
| `FaultRuns.NumbersNeverGoBack` | src/robot_md_gateway/attestation.py:399-421 | under every crash, torn line and head loss, from an empty file or unnumbered lines, readable seqs are strictly increasing in file order and a usable head is at least as large as each |
| `Invokes.SerialLog` | src/robot_md_gateway/attestation.py:513-563 | appending records one by one from empty files gives seqs 1..N, each bound to the line above, no notes, and a head describing the last line |
| `Invokes.InterleavingIsSerial` | src/robot_md_gateway/attestation.py:497-563 | under every schedule of lock, read link, write head, write line, the export is the one a single writer leaves by appending the same records in lock order |
| `Naming.EveryRunIsALife` | src/robot_md_gateway/attestation.py:513-563 | every schedule of the interleaved requests is a life of the crash-prone process in which nothing else happens, so what is proved of all lives holds of all schedules |
| `Naming.NamedIff` | scripts/verify_receipt.py:291-297 | at every reachable state, whatever msg_ids are reused, the walk names exactly the ids under which some request wrote an intent line and none wrote an outcome line |
| `Naming.UnnamedIff` | scripts/verify_receipt.py:376-382 | a dispatch in flight goes unnamed if and only if another request of the same msg_id has an outcome line |
| `Naming.RetryHidesADispatch` | src/robot_md_gateway/receiver.py:667-676 | from any state with a dispatch in flight and no record being written, a retry that any gate denies leads to a state in which the dispatch is still in flight and no longer named |
| `Naming.ADispatchInFlight` | src/robot_md_gateway/receiver.py:980-985 | such a state is reachable for every msg_id: a lone request that has written its intent line and is executing |
| `Naming.OrphansAreInFlight` | src/robot_md_gateway/receiver.py:980-1025 | with distinct msg_ids, a request is named "dispatch never reported" exactly while it has written its intent line and not its outcome line |
| `Naming.OnlyRequestsAreNamed` | scripts/verify_receipt.py:376-382 | whoever is named at a reachable state is a request that wrote an intent line |
| `Invokes.ChainIsSound` | src/robot_md_gateway/receiver.py:423-445 | under every schedule the audit chain passes the verifier's loop and entries carry their owner's msg_id; an outcome entry carries an intent hash if and only if its own request stored an intent entry with that hash before it, and carries none if and only if its request stored none |
| `InvokeProgram.FinishedIsOnePass` | src/robot_md_gateway/receiver.py:611-1065 | whatever else interleaves, the records of a finished request are, in order, exactly those of one pass through `/v1/invoke`: of a dispatch, of the denial by its gate, or of a refusal |
| `InvokeProgram.RunningIsAPrefix` | src/robot_md_gateway/receiver.py:980-1025 | at every moment the records of an unfinished request are the first ones of such a pass |
| `InvokeProgram.EveryRunHasATrail` | src/robot_md_gateway/receiver.py:611-1065 | every schedule leaves such a record of every thread, so the two theorems above are about every run |
| `Floor.RequestsRun` | src/robot_md_gateway/receiver.py:611-1065 | requests that share the gateway's memory, judged in any interleaving, are a run of the interleaved requests, so every theorem about those runs applies |
| `Floor.JudgementIsPossible` | src/robot_md_gateway/receiver.py:625-964 | whatever the memory holds, a waiting request has a first obstacle or none, and a memory that is left |
| `Floor.OnlyTheAdmittedCall` | src/robot_md_gateway/receiver.py:966-1001 | in every interleaving, whoever is about to call the actuator was admitted at one moment, when nothing blocked it on the memory of that moment |
| `Floor.JudgementStands` | src/robot_md_gateway/receiver.py:625-1025 | in every interleaving, a judged request goes on as it was judged: a denial under the name of the gate that was first in its way, a refusal over without a record, and every admitted or denied request finished with its outcome in the audit chain |
| `Floor.AdmittedTwice` | src/robot_md_gateway/cert/envelope.py:114-118 | in every interleaving, with heartbeats, trips and clears in between, a gateway that requires signatures admits two requests under one msg_id only if as many other ids as its window holds, all different, got past the replay gate between their judgements |
| `Crashes.NoSilentCrash` | src/robot_md_gateway/attestation.py:424-431 | through every interleaving of requests with process deaths at any moment, torn lines, lost heads, writes that fail before their head and writes that fail at any byte of their line while the request goes on: the walk is quiet if and only if no line was torn and no record was written on top of a loss, and readable numbers strictly increase |
| `Crashes.ReportedForever` | src/robot_md_gateway/attestation.py:539-563 | once such a run is reported, no later request, death or loss brings the walk back to exit 0 |
| `Crashes.UndisturbedWalk` | src/robot_md_gateway/attestation.py:513-563 | without deaths and lost heads, whatever interleaves and whichever writes fail to start, the walk has no failure and only never-reported findings |
| `Crashes.NamedDeadOrAlive` | scripts/verify_receipt.py:376-382 | at every moment of every such run, failed writes included, the walk names exactly the ids with an intent line on file from some request, dead or alive, and an outcome line from none |
| `Crashes.TheDeadAreNamed` | src/robot_md_gateway/receiver.py:966-972 | a dispatch whose outcome line never came, because its process died or not, goes unnamed if and only if another request of its msg_id has an outcome line |
| `Crashes.AuditSurvives` | src/robot_md_gateway/cert/audit.py:106-123 | the same across restarts, each beginning an empty chain: outcomes point at the intents of their own request if and only if those were stored |
| `Audit.AuditChain.Append` | src/robot_md_gateway/cert/audit.py:106-123 | appends one entry linked to the tail, returns that very entry, and keeps the chain acceptable |
| `Audit.VerifyChain` | src/robot_md_gateway/cert/audit.py:166-175 | the loop answers true if and only if every entry links to the one before it and carries its own hash |
| `Audit.SameTailSameChain` | src/robot_md_gateway/cert/audit.py:166-175 | two accepted chains with the same last hash are equal |
| `Shipper.AtLeastOnce` | src/robot_md_gateway/shipper.py:176-247 | through every interleaving of gateway writes, polls and crashes: the offset is on a line boundary; acknowledged POSTs are, as a multiset, one per sent line before the offset, plus those a crash swallowed, plus the one in hand; every POSTed body is one whole line |
| `Shipper.DuplicatesAreCrashes` | src/robot_md_gateway/shipper.py:229-241 | a line is acknowledged at most once more than its acknowledgements lost to crashes, and all lost acknowledgements together are no more than the crashes |
| `Shipper.AcksAreAnswers` | src/robot_md_gateway/shipper.py:234-241 | over every run there is one body per POST and one acknowledgement per POST answered from 200 to 299 |
| `Shipper.OutcomesLeaveIntentsStay` | src/robot_md_gateway/shipper.py:161-173 | over every run, every record's line before the offset was acknowledged unless it is an intent and intents are not shipped, and no such intent was ever sent |
| `Shipper.OnlyIntentsStay` | src/robot_md_gateway/shipper.py:161-173 | over every run, a line before the offset that was never acknowledged reads as an intent and intents are not shipped: a torn line, other JSON and every outcome are sent |
| `Shipper.DeliverExact` | src/robot_md_gateway/shipper.py:217-241 | one poll moves the offset over exactly the lines it kept or had accepted and stops at the end of the complete lines or at the first answer that is not 2xx |
| `Shipper.ShipperState.ShipOnce` | src/robot_md_gateway/shipper.py:176-247 | the polling loop delivers what the specification says; an offset past the end posts nothing and stays |
| `Shipper.PollIsARun` | src/robot_md_gateway/shipper.py:214-241 | what one poll delivers is a run of the crash-prone process, so the theorems about all runs hold after it |
| `Replay.ReplayCache.Record` | src/robot_md_gateway/cert/envelope.py:132-141 | the eviction loop drops from the old end only, leaves room for one id, and a known id keeps its place; a window without room fails and ends empty |
| `Replay.ReplayCache.CheckReplay` | src/robot_md_gateway/cert/envelope.py:228-245 | refused if and only if the id is empty or in the window, and then nothing changes; an accepted id joins the window |
| `Replay.WindowIsTheLastMax` | src/robot_md_gateway/cert/envelope.py:121-141 | after any checks the window is exactly the last max_size ids that passed, in order |
| `Replay.WindowHasNoRepeats` | src/robot_md_gateway/cert/envelope.py:129-141 | the window never exceeds max_size and never holds an id twice |
| `Replay.PassedTwice` | src/robot_md_gateway/cert/envelope.py:228-245 | an id passes twice only after max_size other ids, all distinct, passed in between |
| `Replay.ReplayNeedsAFloodInTime` | src/robot_md_gateway/receiver.py:652-676 | a captured envelope with a timestamp gets in again only after that many other ids, all of it within twice the allowed skew |
| `Revocation.RevocationCache.IsRevoked` | src/robot_md_gateway/cert/revocation.py:23-74 | an answer younger than the TTL is returned as it was; otherwise the verdict is the resolver's and is remembered, and an unresolvable or failed lookup is never cached |
| `Revocation.VerdictsAreRecent` | src/robot_md_gateway/cert/revocation.py:24-41 | every verdict returned is one the resolver gave for that kid now or less than the TTL ago |
| `Revocation.RevocationTakesEffect` | src/robot_md_gateway/cert/revocation.py:24-74 | if the resolver stops clearing a kid at time T, no call at T + TTL or later lets it through |
| `Revocation.StaleInsideTheTtl` | src/robot_md_gateway/cert/revocation.py:32-41 | the bound is tight: inside the TTL the old verdict is still returned |
| `Safety.SafetyMonitor.DoClear` | src/robot_md_gateway/cert/safety.py:69-117 | only the commission tier clears, from any state, and the heartbeat is left alone |
| `Safety.SafetyMonitor.Admits` | src/robot_md_gateway/receiver.py:625-636 | a request is let on exactly when the state was ready and the heartbeat is not older than the bound |
| `Safety.EstopIffTripStands` | src/robot_md_gateway/cert/safety.py:24-41 | over any history, the emergency stop is active if and only if a trip came after the last commission-tier clear |
| `Safety.StateFromHistory` | src/robot_md_gateway/cert/safety.py:24-133 | the whole state as a function of the history of trips, heartbeats, ticks and clears |
| `Safety.SafeStopIsSticky` | src/robot_md_gateway/cert/safety.py:43-55 | no number of heartbeats, ticks and lesser clears leaves the safe stop |
| `Safety.RequestAdmittedIff` | src/robot_md_gateway/cert/safety.py:49-53 | a request's check passes if and only if no trip and no stale tick stands and the last heartbeat is recent at that check |
| `Gates.FromManifestGates` | src/robot_md_gateway/cert/gates.py:115-124 | the loop collects exactly the scopes covered by the manifest's gates that require a human |
| `Gates.NoLabelBuysAnything` | src/robot_md_gateway/cert/gates.py:100-112 | for a motion tool, what the scope, tier, confidence and human-in-the-loop gates allow under one label they allow under every motion scope in any letter case, for every threshold table and policy |
| `Gateway.Receiver.Admit` | src/robot_md_gateway/receiver.py:625-697 | the gates that keep state: the first that blocks, and what the monitor, window and cache remember afterwards; stale and replayed envelopes leave the window as it was |
| `Gateway.Receiver.Judge` | src/robot_md_gateway/receiver.py:699-964 | the gates that only read: the first that blocks on its own terms |
| `Gateway.Receiver.Invoke` | src/robot_md_gateway/receiver.py:611-1065 | memory and the ordered records of one request, for every configuration, and its answer: 200 if and only if nothing blocks it and the actuator succeeds, a denial if and only if that gate is the first thing in its way or the actuator refuses on policy, and when it is a 404, 422 or 500; no 200 without a call |
| `GateMeaning.DispatchedIff` | src/robot_md_gateway/receiver.py:625-964 | everything a dispatch takes, if and only if, in the request's own terms: a ready monitor, a fresh signed envelope with a new id under an unrevoked key, the manifest, the tier, the tool, the scope, the confidence, the human and the route |
| `GateMeaning.FirstInOrder` | src/robot_md_gateway/receiver.py:625-964 | the gates are met in this order: what stops a request is the first in the list that blocks it |
| `GateMeaning.EnvelopeRefusals` | src/robot_md_gateway/cert/envelope.py:174-245 | when the safety, signature, freshness and replay gates refuse: a timestamp that is no number or further away than the skew allows, none where one is required, an id that is empty or in the window |
| `GateMeaning.KeyRefusals` | src/robot_md_gateway/receiver.py:677-697 | revocation is asked about every named signer; an answer younger than the TTL comes first, and no answer is no admission |
| `GateMeaning.ToolRefusals` | src/robot_md_gateway/cert/policy.py:40-204 | the tiers that cannot act, the tier COMMISSION needs, the allowlist, the tier per tool, and the scopes under which a tool may move the robot |
| `GateMeaning.ConfidenceRefusals` | src/robot_md_gateway/cert/gates.py:25-65 | the confidence must be stated and reach its own scope's number, and for a motion that of each of the four motion scopes, 0.95 where none is listed |
| `GateMeaning.HumanRefusals` | src/robot_md_gateway/cert/gates.py:97-170 | a human is missing if and only if the policy in force names the scope, or for a motion any motion scope, and the delegation chain does not end with a human delegated this very scope in some letter case |
| `GateMeaning.CoveredMeans` | src/robot_md_gateway/cert/gates.py:87-124 | the scopes the manifest's own gates put under a human, gate by gate |
| `GateMeaning.NoMotionWithoutItsHuman` | src/robot_md_gateway/receiver.py:782-1001 | in every session, each call was made for a request with the tier, scope, confidence and human its policy asks for |
| `GateMeaning.RecordedIff` | src/robot_md_gateway/receiver.py:966-1025 | exactly what is on record of a request and when: entries and lines by the logs that are on and the writes that got through |
| `Gateway.CalledOnlyAfterTheGates` | src/robot_md_gateway/receiver.py:966-1025 | the actuator is called at most once, only when every enabled gate passes and routing chose it, after the intent was attempted and before any outcome record |
| `Gateway.SessionAccounts` | src/robot_md_gateway/receiver.py:625-1025 | over a whole session from any memory, whatever reaches the safety monitor in between, the actuator is called once for every request that nothing blocked and for no other, and the audit chain gets one outcome entry for each of these and for each request whose first obstacle is a gate |
| `Gateway.EveryCallWasAnnounced` | src/robot_md_gateway/receiver.py:966-1001 | in every session, whatever reaches the safety monitor in between, each call was made for a request that nothing blocked, with its intent attempted before it and no other call in between |
| `Sessions.WindowTracks` | src/robot_md_gateway/receiver.py:652-676 | the gateway's window is at every moment the replay window of the requests that reached the freshness check |
| `Sessions.DispatchedTwice` | src/robot_md_gateway/cert/envelope.py:114-118 | a gateway that requires signatures dispatches two requests under one msg_id only after as many other ids as its window holds, all different, got past the replay gate in between |
| `Gateway.NoLabelOpensTheGateway` | src/robot_md_gateway/receiver.py:782-871 | if the whole pipeline lets a motion through under some scope label it lets it through under every motion scope, the delegation chain's last hop relabelled to match |
| `Gateway.ExpectedExportCounts` | scripts/rcan_conformance.py:305-319 | the counting loop: per id, every case adds an outcome and every expected 200 an intent, shared ids adding up |
| `Gateway.ExportMatchesExpectation` | scripts/rcan_conformance.py:305-319 | when every 200 was a dispatch and every refusal a recorded gate denial, the export's per-id intent and outcome counts are the expected ones |
| `Hil.IndicesAreInside` | hil/run.py:72-82 | for 0 < replays <= motions the indices exist, are strictly increasing and lie in 1..motions |
| `Hil.PicksAreMiddles` | hil/run.py:72-82 | each replayed iteration is the middle of its own block of motions, the earlier of two |
| `Hil.RefusedIff` | hil/run.py:72-82 | no indices exist exactly when the motions are fewer than the replays, for any integers |
| `Hil.RunMotions` | hil/run.py:128-165 | the motion loop: every answer, the window left, and the first failing iteration |
| `Hil.RunReplays` | hil/run.py:187-220 | the replay loop goes on through every pick and stops right after the first accepted replay |
| `Hil.RunPhase5` | hil/run.py:128-225 | all_pass holds if and only if every motion was answered 200 within the budget, all_denied if and only if every planned replay was sent and answered 403 with deny replay |
| `Hil.EveryReplayIsDenied` | hil/run.py:187-225 | against a gateway whose window holds at least as many ids as there were motions, all answered 200, every replay is denied, whatever the window held before |
| `Hil.FirstReplayTells` | hil/run.py:187-220 | the first replay is denied if and only if the gateway still holds the id of the very motion it replays |
| `Receipt.Sign` | src/robot_md_gateway/cert/envelope.py:78-96 | signing in place leaves a body that verifies under that key and is the old body once the block is taken off |
| `Receipt.AttachSignature` | src/robot_md_gateway/receiver.py:480-494 | the response afterwards, attested or explicitly unattested |
| `Receipt.SignedVerifies` | scripts/verify_receipt.py:214-225 | a signed body verifies under the key that signed it and under no other |
| `Receipt.SignatureBinds` | scripts/verify_receipt.py:112-134 | writing another value into a signed field leaves a receipt that verifies if and only if the two values are alike |
| `Receipt.SameBytesIffAlike` | scripts/verify_receipt.py:112-134 | two values have the same canonical bytes if and only if they are the same JSON up to writing whole numbers as 2 or 2.0, at any depth |
| `Receipt.VerifiesIffAlike` | scripts/verify_receipt.py:214-225 | a signature made over a body verifies on exactly the bodies that are alike |
| `Receipt.FlipsOneBit` | scripts/verify_receipt.py:512-520 | the flip changes the lowest bit of an ASCII first character and nothing else, so flipping again gives the text back |
| `Receipt.FlippedCopyIsRejected` | scripts/verify_receipt.py:512-520 | the flipped copy differs in exactly one signed field, the caller from version 2 on and the corr_id before, and never verifies |
| `Receipt.CheckReceipt` | scripts/verify_receipt.py:444-509 | exit 0 if and only if the receipt is good, with or without the tamper check, and exit 2 if and only if it holds no outcome of a known version |
| `Receipt.ExitOkIff` | scripts/verify_receipt.py:452-508 | exit 0 if and only if an outcome of a known version is found, verifies and, from version 2 on, names caller and tier; the tamper check changes no verdict |
| `Receipt.FoundInEveryShape` | scripts/verify_receipt.py:137-165 | the outcome inside a bare receipt, a 200 body, a 403 detail or an export line is located as that same outcome |
| `Receipt.ExtractExact` | scripts/verify_receipt.py:137-165 | which block of any JSON object is taken for the outcome, in which order, and when none is |
| `Receipt.ReceiptRoundTrip` | src/robot_md_gateway/attestation.py:566-617 | every outcome the builder can make, with any of its optional fields, signed, is found again in every shape it emits and verifies there with exit 0 |
| `Receipt.OutcomeReadsBack` | src/robot_md_gateway/attestation.py:566-617 | the outcome found in any shape carries every field it was built from under its own name, null for an undeclared caller or tier, and an optional field if and only if it was given |
| `Receipt.IntentReadsBack` | src/robot_md_gateway/attestation.py:202-247 | a signed intent carries who was about to do what with which actuator, and says that it is no outcome |
| `Receipt.OutcomeLineReadsBack` | src/robot_md_gateway/attestation.py:125-167 | what the walk reads off an outcome line is its kind, the envelope's msg_id and the position it was given |
| `Receipt.IntentLineReadsBack` | src/robot_md_gateway/attestation.py:170-198 | the same for an intent line |
| `Receipt.ResponsesShow` | src/robot_md_gateway/receiver.py:480-494 | a response shows the outcome and its own signature beside it, or that there is none, and a denial names its gate and reason whatever else the gate added |
| `Receipt.UnattestedIsNoReceipt` | src/robot_md_gateway/receiver.py:480-494 | a response that could not be signed is never taken for a receipt |
| `Receipt.IntentIsNeverAnOutcome` | src/robot_md_gateway/attestation.py:169-246 | no signed intent, bare or as an export line, is accepted as an outcome |
| `Preflight.StopsExact` | scripts/rrf_preflight.py:641-649 | the stop reasons of a mode are exactly the findings that stop it |
| `Preflight.FirstStopIsNamed` | scripts/rrf_preflight.py:641-649 | a verdict is stopped under a name if and only if that is the first finding that stops the mode |
| `Preflight.KidStopsIff` | scripts/rrf_preflight.py:744-815 | looking a kid up stops a mode if and only if the kid is new, in use in that mode, and two of its keys (local, registry, pin) differ or it is revoked |
| `Preflight.BenchStopsIff` | scripts/rrf_preflight.py:819-861 | the bench verdict stops if and only if the manifest, its fixture, its signature, its kid or its robot record is at fault, in bench and live runs alike |
| `Preflight.LiveStopsIff` | scripts/rrf_preflight.py:1014-1365 | the live verdict stops if and only if the bench verdict does or the gateway, its key material, its authority, its pairing payload, its newest receipt or one of its signers is at fault, even when kids coincide and are looked up once |
| `Preflight.SilenceNeverStops` | scripts/rrf_preflight.py:713-815 | replacing any registry answers by 404 or by none creates no stop that was not there before |
| `Preflight.LiveIsNeverBetter` | scripts/rrf_preflight.py:819-861 | in one live run the live verdict is never better than the bench verdict |
| `Preflight.RegistryResolvesIff` | scripts/rrf_preflight.py:954-959 | the registry-resolves verdict, if and only if: nothing named by the two theorems above stops it, registry, local copy and pin are one key for every kid that signs, the manifest verifies under it, the robot record is unrevoked, and the declared authority, if there is one, holds the key the gateway signs with and is the one the registry maps the kid to |
| `Preflight.RanOkIff` | scripts/rrf_preflight.py:1097-1179 | the authority check holds if and only if no authority is declared, or its record holds the key the gateway's kid resolves to locally and the registry maps the kid to no other |
| `PreflightFindings.KidFindingsExact` | scripts/rrf_preflight.py:744-815 | over a whole run, exactly the kids some stage needs are looked up, and everything said of a kid is exactly what the resolvers and the pins give reason to, judged by the first use the run has for it |
| `PreflightFindings.OtherFindingsExact` | scripts/rrf_preflight.py:819-1365 | everything else a run says, whether it stops anything or not, if and only if its reason holds, with the modes it stops |
| `PreflightFindings.ChecksExact` | scripts/rrf_preflight.py:954-1179 | which checks a mode is judged by, and when each of them holds |
| `PreflightRun.Run.CheckKid` | scripts/rrf_preflight.py:744-815 | a kid is looked up once and remembered as answered; the lookup newly stops a mode if and only if the kid is new, in use there and contested |
| `PreflightRun.Run.CheckManifest` | scripts/rrf_preflight.py:863-917 | the manifest's findings stop both modes if and only if it is missing, unsigned, malformed or not its fixture, and whether the run goes on |
| `PreflightRun.Run.CheckManifestKeys` | scripts/rrf_preflight.py:919-959 | newly stops both modes if and only if the manifest's kid is contested, or its local copy is missing or does not verify the manifest; both manifest checks are entered for every mode |
| `PreflightRun.Run.CheckRobot` | scripts/rrf_preflight.py:961-1012 | stops both modes if and only if the robot record is revoked; an absent record fails the check but stops nothing |
| `PreflightRun.Run.CheckGateway` | scripts/rrf_preflight.py:1014-1179 | newly stops the live mode if and only if the gateway is at fault, and enters the two live-only checks with what they stand for, which a gateway that does not sign never gets |
| `PreflightRun.Run.CheckPairing` | scripts/rrf_preflight.py:1213-1270 | newly stops the live mode if and only if the payload is unreadable or names another kid or another key than the local copy |
| `PreflightRun.Run.CheckSigners` | scripts/rrf_preflight.py:1352-1365 | the loop over the export's signers newly stops the live mode if and only if one of them is contested, or unresolved while signatures are enforced |
| `PreflightRun.Run.CheckOtherPins` | scripts/rrf_preflight.py:1380-1386 | the loop over unused pins of this robot looks them up and stops nothing |
| `PreflightRun.Run.Go` | scripts/rrf_preflight.py:819-861 | a whole run's verdict of each mode: stopped if and only if the manifest or, live, the gateway is at fault, and registry-resolves if and only if it is not stopped and the registry backs every key, the manifest and the robot record |

## Left out

- Ed25519, PEM, base64 and SHA-256 internals: idealised as described above.
- JSON, YAML and pydantic: lines go through the lawful codec, envelopes and manifests are records of the facts the parsers establish.
- NaN, infinite and negative-zero floats, and confidences that are not numbers: numbers are integers or reals, an unusable confidence is a missing one.
- HTTP, FastAPI, the thread pool and the stop lane: requests are programs whose turns interleave freely.
- fsync and disk timing: each file replacement and offset write is one step; crashes fall between steps or inside a line's bytes.
- Several gateway processes writing one export at the same time: the lock is per process, and so is the model.
- Unusable head files: an unreadable or malformed head is a missing one, as the reader treats it.
- The contents of the certification report, and the audit entries a safety clear writes.
- Preemption inside `check_replay` and `SafetyMonitor`, which take no lock: each call is one step, and safety is claimed at check time.
- An audit append of an outcome that raises: the code does not catch it, and the model lets it succeed.
- Credentials, manifest reading, the RRN comparison and actuator routing: their results are inputs of a request.
- The signature over an exported audit bundle: only its chain check is modelled.
- An offset file with garbage or a negative number, and an export file that does not exist yet: a poll starts from a natural number and a byte string.
- A signature block that is not an object, a `sig` that is not a string and a receipt that is not a JSON object: the code stops there with an exception of Python's own.
- The walk's printed text, apart from what it names.
- Findings of the preflight that stop nothing and enter no check in `_gateway`, `_drive`, `_pairing`, `_rrn` and `_manifest` (environment drift, allowlist differences, host addresses, the next number to issue), the severity of a finding outside its stop modes, and the output document.
- The tail of the export as the preflight reads it: its signers and newest receipt are inputs.
- Gateway.Receiver.Invoke: one request at a time, and sessions are sequences of such passes; interleaving is the subject of `Invokes` and `Floor`, where the gates of a request are one step and both logs are configured.
- Crashes.NoSilentCrash: a death or a failed write falls between two steps of the machine or inside the bytes of a line; a head file is replaced whole or not at all.
- Gateway.Receiver.Execute: the actuator is a result chosen by the request; what it does to the robot, and how long it takes, is not modelled.
