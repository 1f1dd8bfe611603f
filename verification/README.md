# Verification of the runtime adapter

A Dafny model of the StarCraft runtime adapter's most stateful parts, with proofs about all
their runs. `dafny verify dfyconfig.toml` checks everything. Each file is one module.

**The AIScript engine.** `AiScriptCode` holds the opcode table and the operand widths the
handlers read; `AiScriptMachine` is the engine as a state machine whose step is one action of
`UpdateScripts`: skip, erase, start, or execute one opcode. A script may loop for ever, so a
run is any finite list of inputs, and the theorems hold after every such list.
`AiScriptOpcodes` says what each opcode does, by its number and bytes. `AiScriptSafety` is a
bytecode-verifier theorem; `AiScriptSchedule`, `AiScriptFrame`, `AiScriptSleep` and
`AiScriptRetry` are laws of passes and frames, sleeping and killed threads, retries and calls.
`AiScriptThread`, `ControllerSlots` and `AiScriptHost` are the mutable objects and loops of the
source, proved to run that machine, erasing and inserting while they iterate.

**Commands.** `CommandWire` is the self-delimiting turn-buffer format with its decoder,
`CommandForms` the forms of requests, `CommandEncoder` the encoder with its range checks,
`CommandReading` a reader of the wire that gives each record its meaning back, `TurnBuffer` the
commit into the memory of another process whose reads and writes may fail or stop short.
`EncoderSurface` compares the encoder's dispatch with the declared surface.

**The production gate.** A ready file is a sequence of key=value lines. `Evidence` compares the
two independent evidence judges, `Contract` and `BridgeProofs` are the validators and the
application of proofs, `ContractMeaning` and `BridgeEffect` what they mean for each entry,
`BridgeLaws` and `BridgeMonotone` their laws. `BridgeOrder` and `BridgeOrderExample` settle
when the order of the file's lines matters. `ProductionGate`, `CommandSinks`, `GateSurvey`,
`GateCapabilities`, `GateErrors` and `GateLaws` are the preflight, `ReadyRows` says what its
rows must spell; `GapReport`, `GapContents`, `CommandSurface`, `LiveEvidence`,
`RemasteredBackend` and `ProbeSupport` are the production claim, the gap list, live evidence
and the backend's probe, open and close. Proof validators are parameters, functions of the
ready file and a proof line, so the laws hold for any of them; the shipped ones are a special
case in `GateLaws`.

**Submission.** `CommandText`, `RuntimeCommandQueue`, `Heartbeat`, `Submission` and
`SubmissionRoutes` follow a list of commands from the queue through every check to one of three
destinations.

**Tools.** `JobScheduler` is the memory-guarded parallel runner, `JobTurns` what one turn of it
does; `StringScan` and `CodeSweep` are two pairs of differently written binary scans that must
agree.

Behaviour worth knowing, as the code has it: WAIT yields without setting a sleep time, EXPAND
reads two operand bytes, WAIT_SECURE has no handler, KILL_THREAD may mark the thread that runs
it (which continues until it yields), and DEBUG logs the string at the jump target although it
sends the inline one. Three intended laws need a condition, which the model states exactly: the
gap report is sound only for well-named contracts (`GapReport.EmptyReportWithoutClaim` shows
why); heartbeats are monotone only per process (`Heartbeat.WriteWithoutProgress`); and applying
a ready file's proofs ignores the order of its lines only when no key that a validator reads
has two values. The duplicate checks cover the identity keys and the sensitive keys, but not
`executor` and `resident.adapter`, which the attach validator reads
(`BridgeOrderExample.OrderMatters`).

## Model

| member | source | states |
|---|---|---|
| AiScriptSafety.RunIsSafe | bwapi/BWScriptEmulator/ScriptThread.cpp:34-54 | From a set of instruction boundaries closed under the handlers' own decoding, no run of any length reads outside the script, whatever the game answers |
| AiScriptSafety.EveryReachableThread | bwapi/BWScriptEmulator/ScriptThread.h:32-68 | In every reachable state each thread that will execute again stands on a boundary, every call-stack entry is a boundary, sleep is at most 30 and the log has at most 33 entries, threads spawned in mid-pass included |
| AiScriptSafety.StepIsSafe | bwapi/BWScriptEmulator/ScriptOpcodes.cpp:12-34 | One step of the engine keeps these facts; a jump to offset 0 is caught by the read loop |
| AiScriptSafety.OpcodeIsSafe | bwapi/BWScriptEmulator/Opcode.cpp:24-43 | One opcode decoded on a boundary never reads outside the script and leaves the thread on a boundary |
| AiScriptSafety.ReachableControllerIsPacked | bwapi/BWScriptEmulator/Controller.cpp:29-71 | In every reachable state the taken slots of the attack array and of each defense row form a prefix |
| AiScriptSchedule.ThreadCountIsListLength | bwapi/BWScriptEmulator/ScriptThread.cpp:33-54 | The thread counter equals the list length in every reachable state |
| AiScriptSchedule.ReachableIsOrdered | bwapi/BWScriptEmulator/ScriptThread.cpp:82-86 | List nodes keep distinct identities over every run and the counter follows spawns and erasures |
| AiScriptSchedule.PassPrefix | bwapi/BWScriptEmulator/ScriptThread.cpp:36-53 | In mid-pass the threads visited so far are, in list order, those that left the unvisited part, and spawned threads stand in front |
| AiScriptSchedule.PassLaw | bwapi/BWScriptEmulator/ScriptThread.cpp:34-54 | A whole pass visits every thread present at its start exactly once in list order and no other; afterwards the list is the spawned threads, newest first, then the visited ones that were not erased |
| AiScriptFrame.FramesArePasses | bwapi/BWScriptEmulator/ScriptThread.cpp:34-54 | Over any run the frame counter grows by the number of passes begun |
| AiScriptFrame.FrameIsOnePass | bwapi/BWScriptEmulator/ScriptThread.cpp:34-54 | A run from a pass boundary to a boundary one frame later is exactly one pass and satisfies the pass law; it is stated on what UpdateScripts guarantees |
| AiScriptFrame.RunsAgree | bwapi/BWScriptEmulator/ScriptOpcodes.cpp:12-34 | Two runs whose game answers are compatible go through the same states: nothing else decides a run |
| AiScriptFrame.AskingNeedsMore | bwapi/BWScriptEmulator/ScriptThread.cpp:34-54 | A run that stops in mid-pass for want of an answer had fewer answers than any whole pass needs |
| AiScriptSleep.SleepLaw | bwapi/BWScriptEmulator/ScriptThread.cpp:192-200 | A thread that nothing touches stays as it is, apart from kill marks, while its due pass is not over |
| AiScriptSleep.WakeLaw | bwapi/BWScriptEmulator/ScriptThread.cpp:40-52 | The first touch of a sleeping thread comes in its due pass: erased if marked by then, otherwise started where it stopped |
| AiScriptSleep.KillLaw | bwapi/BWScriptEmulator/Kill_Thread.cpp:8-19 | A marked thread that has yielded executes nothing more, is listed before its due pass and is gone after it |
| AiScriptSleep.DueAtBoundary | bwapi/BWScriptEmulator/ScriptThread.cpp:192-205 | At a pass boundary the due pass of a thread with sleep n is the (n+1)-th next one |
| AiScriptRetry.BlockingOpcode | bwapi/BWScriptEmulator/Train.cpp:10-28 | A blocking opcode moves past itself when there is enough of what it waits for and otherwise rewinds to its own first byte with sleep 30; one debug entry, same call stack |
| AiScriptRetry.RetryLaw | bwapi/BWScriptEmulator/ScriptThread.cpp:232-276 | However often one instance of a blocking opcode is retried, each retry finds not enough, the thread waits at its first byte with the same stack and log, and the retries lie exactly 31 passes apart (30 skipped between two of them) |
| AiScriptRetry.InstanceEnds | bwapi/BWScriptEmulator/ScriptThread.cpp:232-276 | The execution that at last passes the opcode finds enough and comes in its turn of the same 31-pass beat, unless the thread is erased first |
| AiScriptRetry.InstanceBegins | bwapi/BWScriptEmulator/Wait_Train.cpp:8-22 | The first execution logs one entry; if there is not enough, the opcode is due again after exactly 30 skipped passes |
| AiScriptRetry.CallPushesNext | bwapi/BWScriptEmulator/Call.cpp:8-20 | CALL pushes the address behind its operand and jumps |
| AiScriptRetry.BalancedRunReturns | bwapi/BWScriptEmulator/Return.cpp:8-23 | While the stack stays above the caller's, both the return address and the lower stack are untouched, and the step that comes back resumes there |
| AiScriptRetry.CallReturns | bwapi/BWScriptEmulator/ScriptThread.cpp:292-305 | CALL followed by a balanced run of any length resumes just behind its operand with the lower stack untouched |
| AiScriptOpcodes.TrainWaits | bwapi/BWScriptEmulator/Train.cpp:10-28 | From the script bytes: TRAIN and WAIT_FORCE go on exactly when the unit count reaches the count byte, and otherwise retry; TRAIN then notes the type it waits for |
| AiScriptOpcodes.WaitTrainWaits | bwapi/BWScriptEmulator/Wait_Train.cpp:8-22 | WAIT_TRAIN goes on exactly when the unit count reaches the count byte |
| AiScriptOpcodes.UpgradeWaits | bwapi/BWScriptEmulator/Wait_Upgrades.cpp:8-20 | WAIT_UPGRADES goes on exactly when upgrades are finished |
| AiScriptOpcodes.EnoughMeans | bwapi/BWScriptEmulator/Train.cpp:21-27 | What enough means for each blocking opcode, by its number and operand bytes |
| AiScriptOpcodes.IfDifJumps | bwapi/BWScriptEmulator/If_Dif.cpp:10-25 | IF_DIF stands at its target word exactly when the difficulty is above the value byte for a nonzero modifier, or below it for a zero one; otherwise behind itself |
| AiScriptOpcodes.RaceJumps | bwapi/BWScriptEmulator/Race_Jump.cpp:8-39 | RACE_JUMP stands at the first, second or third target word for Terran, Zerg and Protoss |
| AiScriptOpcodes.ConditionalJumps | bwapi/BWScriptEmulator/Opcode.cpp:36-42 | A conditional jump stands at its last operand word exactly when the game says so, otherwise behind itself |
| AiScriptOpcodes.GotoJumps | bwapi/BWScriptEmulator/Goto.cpp:8-20 | GOTO stands at its operand word |
| AiScriptOpcodes.CallJumps | bwapi/BWScriptEmulator/Call.cpp:8-20 | CALL stands at its operand word with the address behind itself on top of the stack |
| AiScriptOpcodes.ReturnPops | bwapi/BWScriptEmulator/Return.cpp:8-23 | RETURN stands at the popped address, or marks the thread and yields on an empty stack |
| AiScriptOpcodes.AttackAdds | bwapi/BWScriptEmulator/Controller.cpp:29-39 | The attack opcodes add their count byte of their type word to the attack slots and go on; the easy one only at difficulty 0 |
| AiScriptOpcodes.DefenseBuilds | bwapi/BWScriptEmulator/Controller.cpp:49-61 | The four build opcodes add to the row they name and to no other |
| AiScriptOpcodes.OthersFallThrough | bwapi/BWScriptEmulator/Opcode.cpp:24-43 | Every other handled opcode stands behind its operands and changes nothing else but the log |
| AiScriptOpcodes.UnknownsYield | bwapi/BWScriptEmulator/Opcode.cpp:24-35 | An opcode without a handler yields behind its own byte |
| AiScriptOpcodes.MultirunStep | bwapi/BWScriptEmulator/Multirun.cpp:8-20 | MULTIRUN puts one new thread at its operand word in front of the list and goes on |
| AiScriptOpcodes.KillThreadStep | bwapi/BWScriptEmulator/Kill_Thread.cpp:8-19 | KILL_THREAD marks exactly the killable threads of the list, the running one included |
| AiScriptThread.AiThread.ReadByte | bwapi/BWScriptEmulator/ScriptThread.h:33-40 | A read advances the offset and the byte counter together |
| AiScriptThread.AiThread.ReadOperands | bwapi/BWScriptEmulator/ScriptThread.h:42-68 | Operands are read one after the other from the offset on |
| AiScriptThread.AiThread.Sleep | bwapi/BWScriptEmulator/ScriptThread.cpp:192-195 | Returns the sleep left and uses one tick up |
| AiScriptThread.AiThread.SaveDebug | bwapi/BWScriptEmulator/ScriptThread.cpp:232-262 | A retrying thread logs nothing; the queue never exceeds 33 entries |
| AiScriptThread.AiThread.Retry | bwapi/BWScriptEmulator/ScriptThread.cpp:263-270 | Rewinds by the bytes read, adds 30 to the sleep, asks for a break |
| AiScriptThread.AiThread.Call | bwapi/BWScriptEmulator/ScriptThread.cpp:292-296 | Pushes the offset and jumps |
| AiScriptThread.AiThread.Ret | bwapi/BWScriptEmulator/ScriptThread.cpp:297-305 | Pops the offset, or fails on an empty stack and changes nothing |
| AiScriptThread.AiThread.Perform | bwapi/BWScriptEmulator/Opcode.cpp:36-42 | What each handler does to its own thread, the automatic noretry after success included |
| AiScriptHost.UpdateController | bwapi/BWScriptEmulator/Controller.cpp:29-71 | The handlers' effects on the controller arrays equal the machine's |
| AiScriptHost.RunHandler | bwapi/BWScriptEmulator/Opcode.cpp:36-42 | A handler reads its operands, logs once unless retrying, updates the controller and then its thread, exactly as one opcode of the machine |
| AiScriptHost.RunOpcode | bwapi/BWScriptEmulator/Opcode.cpp:24-43 | readOpcode on the objects equals the machine's opcode step; an invalid opcode yields |
| AiScriptHost.ScriptHost.CreateThread | bwapi/BWScriptEmulator/ScriptThread.cpp:82-86 | A new thread goes to the front of the list and the counter grows |
| AiScriptHost.ScriptHost.KillKillable | bwapi/BWScriptEmulator/Kill_Thread.cpp:8-19 | Marks every killable thread of the list, the running one included |
| AiScriptHost.ScriptHost.ReadOpcode | bwapi/BWScriptEmulator/Multirun.cpp:8-20 | An opcode with its list effects, spawning in front of the iterator and marking, equals the machine's settled state |
| AiScriptHost.ScriptHost.Execute | bwapi/BWScriptEmulator/ScriptOpcodes.cpp:12-34 | The read loop is a run of the machine on the given answers, used in order from the first; it stops at a break, at offset 0, or when the answers have all been used |
| AiScriptHost.ScriptHost.EraseAt | bwapi/BWScriptEmulator/ScriptThread.cpp:42-47 | Erasing at the iterator removes that thread only and decrements the counter |
| AiScriptHost.ScriptHost.Visit | bwapi/BWScriptEmulator/ScriptThread.cpp:37-52 | What the loop does with the thread at the iterator equals the machine's visit |
| AiScriptHost.ScriptHost.UpdateScripts | bwapi/BWScriptEmulator/ScriptThread.cpp:34-54 | A frame on the real list, with erasing and spawning while it iterates, is a run of the machine on a prefix of the given answers, begins exactly one pass, stays safe, and reaches the next pass boundary exactly when the given answers suffice for some run of one pass |
| ControllerSlots.AttackAddRefines | bwapi/BWScriptEmulator/Controller.cpp:29-39 | On a packed array an add appends min(count, free space) copies of type+1 when its arguments are in range and is a no-op otherwise |
| ControllerSlots.DefenseAddRefines | bwapi/BWScriptEmulator/Controller.cpp:49-71 | The same for a defense row with its own range of counts |
| ControllerSlots.ZeroesAreEmpty | bwapi/BWScriptEmulator/Attack_Clear.cpp:10-14 | A cleared array is packed and holds the empty sequence |
| ControllerSlots.AIController.AttackAdd | bwapi/BWScriptEmulator/Controller.cpp:29-39 | The two loops over the fixed array compute the slot function |
| ControllerSlots.AIController.DefenseBuild | bwapi/BWScriptEmulator/Controller.cpp:49-61 | The loops over one row compute the slot function and leave the other rows |
| ControllerSlots.AIController.DefenseUse | bwapi/BWScriptEmulator/Controller.cpp:62-71 | The loops over one row compute the slot function and leave the other rows |
| ControllerSlots.AIController.DefenseClear | bwapi/BWScriptEmulator/Controller.cpp:41-47 | Clears one row of both tables and no other |
| ControllerSlots.AIController.AttackClear | bwapi/BWScriptEmulator/Send_Suicide.cpp:15-21 | Clears the attack slots |
| CommandWire.RoundTrip | bwapi/Runtime/RuntimeCommandEncoder.cpp:91-162 | Decoding a printed command gives it back whatever bytes follow, signed and unsigned fields without truncation |
| CommandWire.DecodeIsCanonical | bwapi/Runtime/RuntimeCommandEncoder.cpp:91-162 | Only printed commands decode: no command has a second spelling |
| CommandWire.PrefixFree | bwapi/Runtime/RuntimeCommandEncoder.cpp:144-162 | Records are prefix-free |
| CommandWire.StreamRoundTrip | bwapi/Runtime/RuntimeExecutor.cpp:2440-2450 | Decoding the concatenation of any list of commands gives exactly that list |
| CommandWire.StreamIsCanonical | bwapi/Runtime/RuntimeExecutor.cpp:2440-2450 | Bytes that decode to a list of commands are exactly its concatenated records |
| CommandWire.BytesOfField | bwapi/Runtime/RuntimeCommandEncoder.cpp:91-111 | 8- and 16-bit fields, signed and unsigned, survive the casts |
| CommandWire.BytesOfWideField | bwapi/Runtime/RuntimeCommandEncoder.cpp:113-119 | 32-bit fields survive the casts |
| CommandEncoder.AcceptedDecodes | bwapi/Runtime/RuntimeCommandEncoder.cpp:605-752 | Every accepted request is a well-formed wire command that the decoder reads back |
| CommandEncoder.EncodeRequest | bwapi/Runtime/RuntimeCommandEncoder.cpp:605-752 | Gives exactly the record that a reader of the wire, by command name, reads back as this request: target, every argument in its place and the queued flag; rejects exactly the requests no record means |
| CommandReading.EncodingIsExact | bwapi/Runtime/RuntimeCommandEncoder.cpp:605-752 | A wire command is the encoding of a request exactly when the reader of the wire reads that request from it |
| CommandReading.FormIsExact | bwapi/Runtime/RuntimeCommandEncoder.cpp:164-603 | The same for one form of record: each argument is in the field the reader takes it from |
| CommandEncoder.RecordIsUnique | bwapi/Runtime/RuntimeCommandEncoder.cpp:605-752 | At most one byte string is the record of a request |
| CommandWire.RecordBytes | bwapi/Runtime/RuntimeCommandEncoder.cpp:91-162 | The bytes of a record, field by field, low byte first |
| CommandWire.SelectBytes | bwapi/Runtime/RuntimeCommandEncoder.cpp:754-774 | A select record is its opcode, the number of ids and each id, low byte first |
| CommandEncoder.EncodePosition | bwapi/Runtime/RuntimeCommandEncoder.cpp:164-182 | The position forms with their optional queued flag |
| CommandEncoder.EncodeUnit | bwapi/Runtime/RuntimeCommandEncoder.cpp:184-198 | The unit-target forms with their optional queued flag |
| CommandEncoder.EncodeOpcodeOnly | bwapi/Runtime/RuntimeCommandEncoder.cpp:262-317 | Opcode-only, unused-byte and queued forms |
| CommandEncoder.EncodeTileAndUnitType | bwapi/Runtime/RuntimeCommandEncoder.cpp:319-342 | Placement commands |
| CommandEncoder.EncodeBuild | bwapi/Runtime/RuntimeCommandEncoder.cpp:344-363 | Build normalises its order argument before the placement form |
| CommandEncoder.EncodeType | bwapi/Runtime/RuntimeCommandEncoder.cpp:365-401 | 8- and 16-bit type arguments |
| CommandEncoder.EncodeCancelTrain | bwapi/Runtime/RuntimeCommandEncoder.cpp:403-419 | Train cancellation with its default slot |
| CommandEncoder.EncodeTech | bwapi/Runtime/RuntimeCommandEncoder.cpp:443-473 | The tech forms |
| CommandEncoder.EncodeLoad | bwapi/Runtime/RuntimeCommandEncoder.cpp:475-499 | Load with its order and optional queued flag |
| CommandEncoder.EncodePing | bwapi/Runtime/RuntimeCommandEncoder.cpp:544-603 | The minimap ping game action |
| CommandEncoder.EncodeAlliance | bwapi/Runtime/RuntimeCommandEncoder.cpp:544-603 | The alliance game action with an unsigned 32-bit mask |
| CommandEncoder.ReadQueued | bwapi/Runtime/RuntimeCommandEncoder.cpp:128-142 | The optional trailing queued flag must be last and 0 or 1 |
| CommandEncoder.ReadArg | bwapi/Runtime/RuntimeCommandEncoder.cpp:45-68 | An argument must be present and in range |
| CommandEncoder.EncodeSelect | bwapi/Runtime/RuntimeCommandEncoder.cpp:754-774 | A selection of 1 to 12 unit ids is accepted and its loop appends exactly the select record |
| CommandEncoder.ByteVector.AppendU16LE | bwapi/Runtime/RuntimeCommandEncoder.cpp:101-106 | Appends two bytes, low first |
| CommandEncoder.ByteVector.AppendU32LE | bwapi/Runtime/RuntimeCommandEncoder.cpp:113-119 | Appends four bytes, low first |
| EncoderSurface.UnitFormsAreTheSurface | bwapi/Runtime/RuntimeCommandSurface.cpp:101-146 | A name has a unit-command encoding exactly when the surface lists it as a unit command |
| EncoderSurface.ActionFormsAreTested | bwapi/Runtime/RuntimeCommandSurface.cpp:185-195 | A game action has an encoding exactly when it is on the surface with encoder-test evidence instead of adapter-local evidence |
| TurnBuffer.EncodeAll | bwapi/Runtime/RuntimeExecutor.cpp:2440-2450 | All commands are encoded and concatenated in order, or none is submitted |
| TurnBuffer.Commit | bwapi/Runtime/RuntimeExecutor.cpp:2471-2506 | Before the count write any failure leaves the visible queue as it was, dirty bytes behind it allowed; success appends exactly the bytes; the stage that fails is the first whose fate or read-back goes wrong |
| TurnBuffer.SubmitDirect | bwapi/Runtime/RuntimeExecutor.cpp:2428-2520 | Success makes the visible bytes the old ones followed by all encodings, within 512 bytes; earlier failures change nothing visible; which step fails is decided by the bytes in memory and each step's fate; each record stands in memory at its audited address, the first where the old queue ended and each next one right behind the previous one, with one row for exactly the commands whose audit file opens |
| TurnBuffer.GoodStepsSucceed | bwapi/Runtime/RuntimeExecutor.cpp:2428-2520 | Encodable commands that fit are submitted when every read and write does its work |
| TurnBuffer.CommitAppends | bwapi/Runtime/RuntimeExecutor.cpp:2471-2506 | With the count word disjoint from the buffer, advancing it reveals the written bytes and no others |
| TurnBuffer.CommitRefinesQueue | bwapi/Runtime/RuntimeExecutor.cpp:2428-2520 | The commit is an append on a queue of decoded commands |
| TurnBuffer.EffectReachesTheGame | bwapi/Runtime/RuntimeExecutor.cpp:2428-2520 | After a successful submission the game's queue decodes to the old commands followed by wire commands that mean the submitted ones, and the audit tells where each stands in memory |
| TurnBuffer.WriteAudit | bwapi/Runtime/RuntimeExecutor.cpp:2503-2515 | Writes one row for exactly the commands whose audit file opens, in order, with addresses that start at the base and follow one another by the record lengths |
| TurnBuffer.WrittenAuditHolds | bwapi/Runtime/RuntimeExecutor.cpp:2503-2515 | Rows written for records that stand in memory name the commands, their records and where they stand |
| Evidence.BindingJudgesAgree | bwapi/Runtime/RuntimeExecutor.cpp:1283-1327 | The executor's filter and the contract's checker (RuntimeContract.cpp, lines 120-164 and 204-236) accept the same evidence for every binding |
| Evidence.StructureJudgesAgree | bwapi/Runtime/RuntimeExecutor.cpp:1329-1346 | The same for every structure |
| Evidence.FieldJudgesAgree | bwapi/Runtime/RuntimeExecutor.cpp:1348-1372 | The same for every structure field |
| Evidence.BindingEvidenceMeans | bwapi/Runtime/RuntimeExecutor.cpp:1283-1327 | The evidence accepted for a binding is the binding's own proof line, alone or with more text after a colon |
| Evidence.StructureEvidenceMeans | bwapi/Runtime/RuntimeExecutor.cpp:1329-1346 | The same for structures |
| Evidence.FieldEvidenceMeans | bwapi/Runtime/RuntimeExecutor.cpp:1348-1372 | The same for fields; the game structure's fields have lines of their own |
| Evidence.FaultMeans | bwapi/Runtime/RuntimeContract.cpp:204-236 | Each fault of the checker names exactly its own defect of the evidence |
| Contract.ValidateRuntimeContract | bwapi/Runtime/RuntimeContract.cpp:406-495 | The nested validation loops report exactly the errors the entries contribute, in order |
| Contract.CollectEvidenceErrors | bwapi/Runtime/RuntimeContract.cpp:521-561 | The evidence loops report exactly the faults of the resolved entries, in order |
| ContractMeaning.ValidMeans | bwapi/Runtime/RuntimeContract.cpp:406-495 | A contract is valid exactly when its header is filled in, every entry has a name, whatever is required is resolved and sized, and every resolved field has a size |
| ContractMeaning.EvidenceMeans | bwapi/Runtime/RuntimeContract.cpp:521-561 | There is no evidence error exactly when every resolved binding, sized structure and resolved field is backed by its own proof line |
| BridgeProofs.FindDuplicateEvidenceKey | bwapi/Runtime/RuntimeExecutor.cpp:1705-1728 | Finds a duplicate exactly when two lines share a sensitive key |
| BridgeProofs.ContractInProgress.ApplyBinding | bwapi/Runtime/RuntimeExecutor.cpp:1829-1860 | Resolves the first binding of that name and kind and nothing else |
| BridgeProofs.ContractInProgress.ApplyReadyFile | bwapi/Runtime/RuntimeExecutor.cpp:2598-2632 | The loop over the ready file applies each line's update in order; what an update is, is LineMeans, and what it does, ApplyTakesEffect |
| ProductionGate.ApplyBridgeProofs | bwapi/Runtime/RuntimeExecutor.cpp:2564-2632 | For an admitted file every entry that a row with accepted, proven evidence names is resolved with exactly that row's numbers and evidence, and every other entry is unchanged; otherwise the contract is |
| BridgeEffect.LineMeans | bwapi/Runtime/RuntimeExecutor.cpp:1829-1942 | A line asks for an update exactly when it is spelled from prefix, names, number texts and evidence that is accepted and proven |
| BridgeEffect.BindingEffect | bwapi/Runtime/RuntimeExecutor.cpp:1829-1860 | The first binding of a name and kind is resolved with the evidence of its row, or unchanged when no row names it |
| BridgeEffect.StructureEffect | bwapi/Runtime/RuntimeExecutor.cpp:1862-1898 | The first structure of a name gets the size and evidence of its row, or keeps its own |
| BridgeEffect.FieldEffect | bwapi/Runtime/RuntimeExecutor.cpp:1900-1942 | The first field of a name gets the offset, the size and the evidence of its row, each from its own part, or is unchanged |
| BridgeEffect.ApplyTakesEffect | bwapi/Runtime/RuntimeExecutor.cpp:2598-2632 | All three, on every entry, for an admitted file |
| ReadyRows.AdmissionMeans | bwapi/Runtime/RuntimeExecutor.cpp:2564-2597 | The admitted files: of an open, configured bridge, with each identity key at most once, no repeated evidence key, and this runtime's protocol, product, version, mode, process and executable |
| BridgeLaws.ApplyIsIdempotent | bwapi/Runtime/RuntimeExecutor.cpp:2564-2632 | Applying the bridge proofs a second time changes nothing |
| BridgeLaws.VerdictsDecideOrder | bwapi/Runtime/RuntimeExecutor.cpp:2598-2632 | Two orders of a ready file on which the validators give the same verdicts give the same contract |
| BridgeOrder.ApplyIgnoresOrder | bwapi/Runtime/RuntimeExecutor.cpp:2598-2632 | For validators that read a file's lines and the first values of given keys, the order of the lines matters for no validator, contract and permutation exactly when the file is not admitted, has no row that could apply, or gives none of the keys two values |
| BridgeOrder.TwoValuesMatter | bwapi/Runtime/RuntimeExecutor.cpp:1149-1194 | Two values of one such key in an admitted file with a row that could apply: a validator over that key, a contract and two permutations of the file, one of which changes the contract while the other does not |
| BridgeOrder.GuardedIsUniform | bwapi/Runtime/RuntimeExecutor.cpp:1634-1728 | An admitted file gives every identity key and every sensitive key one value only |
| BridgeOrder.UnguardedKeysDecide | bwapi/Runtime/RuntimeExecutor.cpp:1634-1728 | So only the keys outside the two duplicate lists decide whether the order matters |
| BridgeOrderExample.OrderMatters | bwapi/Runtime/RuntimeExecutor.cpp:1149-1194 | A concrete file that names two executors: both orders are admitted, one resolves the transport binding, the other leaves the contract as it was |
| BridgeLaws.UpdatesCommute | bwapi/Runtime/RuntimeExecutor.cpp:1829-1942 | Updates of different entries commute |
| BridgeMonotone.ApplyNeverUnresolves | bwapi/Runtime/RuntimeExecutor.cpp:1829-1942 | Nothing is unresolved, unsized, renamed, added or removed |
| BridgeMonotone.ApplyNeverAddsErrors | bwapi/Runtime/RuntimeContract.cpp:406-495 | The validation errors afterwards are a subsequence of those before |
| BridgeMonotone.ApplyNeverAddsEvidenceErrors | bwapi/Runtime/RuntimeContract.cpp:521-561 | The production-evidence errors afterwards are a subsequence of those before |
| CommandSinks.SinksNeedIssueCommands | bwapi/Runtime/RuntimeExecutor.cpp:1409-1491 | An active or a direct runtime sink needs a validated issue-commands proof line |
| ReadyRows.DirectSinkMeans | bwapi/Runtime/RuntimeExecutor.cpp:1412-1465 | The turn buffer is known exactly when both queue rows are backed by the issue-commands proof and each tells its own address behind its last colon |
| ReadyRows.ActiveSinkMeans | bwapi/Runtime/RuntimeExecutor.cpp:1467-1483 | A receiver is active exactly when two lines stand in the file and both queue rows are backed |
| ReadyRows.TransportMeans | bwapi/Runtime/RuntimeExecutor.cpp:1493-1500 | The shared-memory transport is proven exactly by its row and the attach proof, judged without the resident state |
| ProductionGate.PreflightResult.ValidateProductionBridgeProof | bwapi/Runtime/RuntimeExecutor.cpp:1944-2066 | Leaves exactly the capabilities that a required proof or one of five other lines grants, without duplicates, exactly the missing lines in order, the errors of the failing ones with the state's details once, and the mode's error |
| GateCapabilities.SurveyReports | bwapi/Runtime/RuntimeExecutor.cpp:1944-2043 | A capability is proven exactly when a required proof of it has its line present, its state or sink condition met and its validator true, or its extra line is validated; missing is exactly the failing lines, in order |
| GateCapabilities.SurveyAddsErrors | bwapi/Runtime/RuntimeExecutor.cpp:1944-2043 | Which errors the failing lines add, and the resident details at most once |
| ProductionGate.ProductionProofMeans | bwapi/Runtime/RuntimeExecutor.cpp:1944-2066 | Lists, mode, errors and decision of the production proof, from the ready file, the validators and the state |
| GateLaws.PreflightListsAreExact | bwapi/Runtime/RuntimeExecutor.cpp:2634-2689 | A whole preflight reports these lists exactly when the bridge is configured and meets no obstacle, and otherwise no mode and no capability |
| GateErrors.PreflightErrorsMean | bwapi/Runtime/RuntimeExecutor.cpp:2634-2689 | A preflight reports a message exactly when what it says was found: about contract, platform, target or process; about the first failing check of the bridge; or, past those, about a proof, the mode, the process or its memory |
| GateErrors.ObstacleMeans | bwapi/Runtime/RuntimeExecutor.cpp:2082-2166 | The errors of an obstacle are exactly those of the first failing check |
| ProductionGate.PreflightResult.PreflightBridge | bwapi/Runtime/RuntimeExecutor.cpp:2077-2196 | Stops at the first obstacle, otherwise surveys the proofs and decides on mode, process and memory; no other field of the report changes |
| GateLaws.NoObstacleMeans | bwapi/Runtime/RuntimeExecutor.cpp:2082-2166 | The early returns find no obstacle exactly when the bridge and its directory are there, the adapter, if any, is valid, its heartbeat advances, and the ready file passes every identity and duplicate check |
| GateLaws.NoObstacleIsAdmission | bwapi/Runtime/RuntimeExecutor.cpp:2082-2166 | In validated mode with an opened process, the gate meets no obstacle exactly when the bridge is alive and the ready file is one whose proofs are applied to the contract: the two independently written chains of checks agree |
| GateLaws.CleanPreflightAppliesProofs | bwapi/Runtime/RuntimeExecutor.cpp:2634-2689 | A clean preflight has judged the contract with the proofs of that same file applied |
| ProductionGate.PreflightRuntimeExecutor | bwapi/Runtime/RuntimeExecutor.cpp:2634-2689 | Contract, platform, target, process and bridge findings are collected in that order into one report, and nothing else |
| GateLaws.CleanPreflightIsExact | bwapi/Runtime/RuntimeExecutor.cpp:2634-2689 | An available executor with an empty error list is exactly the conjunction of all checks, for every ready file and all validators |
| GateLaws.CleanPreflightProvesEverything | bwapi/Runtime/RuntimeExecutor.cpp:1944-2066 | It implies that each of the twelve required proof lines is present and validated |
| GateLaws.CleanPreflightFields | bwapi/Runtime/RuntimeExecutor.cpp:2169-2196 | It fixes the other fields of the report |
| GateLaws.BridgeIsExact | bwapi/Runtime/RuntimeExecutor.cpp:2077-2196 | From a clean report the bridge ends available and clean exactly when its checks pass |
| GateLaws.ShippedGateStaysClosed | bwapi/Runtime/RuntimeExecutor.cpp:1196-1203 | With the shipped issue-commands validator the preflight is never both available and clean, and there is no runtime sink |
| GapReport.CheckProductionClaim | bwapi/Runtime/RuntimeContract.cpp:568-606 | The checks of the production claim compute one conjunction |
| GapReport.CollectGaps | bwapi/Runtime/RuntimeImplementationGap.cpp:67-201 | The loops collect exactly the specified gaps, in order; what each gap means is GapMeans |
| GapContents.GapMeans | bwapi/Runtime/RuntimeImplementationGap.cpp:67-201 | The report holds a gap of a category and subject exactly when the thing it names is missing: a name not offered or not live, a capability, an unresolved, unsized or unlocated entry, a process, target, executor, memory, mode, proof line, or an error not covered elsewhere |
| GapReport.GapReportIsExact | bwapi/Runtime/RuntimeImplementationGap.cpp:67-201 | An empty report for a well-named contract is exactly a production claim with a clean preflight |
| GapReport.ClaimLeavesNoGaps | bwapi/Runtime/RuntimeContract.cpp:568-606 | A claim with an error-free preflight leaves an empty report |
| GapReport.ValidityIsNamesAndGaps | bwapi/Runtime/RuntimeContract.cpp:406-495 | A contract is valid with production evidence exactly when it is well named and has no gap of its own |
| GapReport.ReportForgetsVersion | bwapi/Runtime/RuntimeImplementationGap.cpp:67-201 | Without the well-named hypothesis the report is not sound: it stays empty when the version is erased |
| GapReport.FullProbeLeavesNoGaps | bwapi/Runtime/RuntimeImplementationGap.cpp:67-201 | Every valid contract with production evidence has a probe and a preflight report that leave no gap |
| GapReport.EmptyReportWithoutClaim | bwapi/Runtime/RuntimeImplementationGap.cpp:67-201 | A concrete probe, contract and preflight report: the gap list is empty and the claim holds, and without the version the list is still empty while the claim fails |
| GapReport.SummarizeByCategory | bwapi/Runtime/RuntimeImplementationGap.cpp:203-223 | Each category once, with its exact count, and the counts add up to the number of gaps |
| GapReport.CountByCategory | bwapi/Runtime/RuntimeImplementationGap.cpp:225-237 | The count of one category |
| CommandSurface.MakeEvidence | bwapi/Runtime/RuntimeCommandSurface.cpp:179-195 | One built-in entry per name, in order |
| CommandSurface.BuiltInIsNeverLive | bwapi/Runtime/RuntimeCommandSurface.cpp:179-195 | Built-in evidence is never live-proven |
| LiveEvidence.ManifestIsNeverLive | bwapi/Runtime/RemasteredRuntimeBackend.cpp:92-106 | Manifest evidence is never live-proven and keeps its names and other statuses |
| LiveEvidence.StaticManifestEvidence | bwapi/Runtime/RemasteredRuntimeBackend.cpp:92-106 | The loop downgrades exactly the live-proven entries |
| LiveEvidence.ReadLiveEvidence | bwapi/Runtime/RemasteredRuntimeBackend.cpp:701-745 | The reading loop with its set of seen names computes the row function |
| LiveEvidence.RowsAreAllOrNothing | bwapi/Runtime/RemasteredRuntimeBackend.cpp:701-745 | The entries are all rows when every row is good and distinct, and otherwise none |
| LiveEvidence.OneBadRowVoidsAll | bwapi/Runtime/RemasteredRuntimeBackend.cpp:701-745 | One bad or repeated row voids every row of its prefix |
| LiveEvidence.LiveRowsAreProven | bwapi/Runtime/RemasteredRuntimeBackend.cpp:618-655 | Every entry read is expected, live-proven and backed by its own proof line and snapshot |
| LiveEvidence.RowMeans | bwapi/Runtime/RemasteredRuntimeBackend.cpp:618-745 | A row proves an entry exactly when it spells a numbered key, the command's name, the live status and the command's own proof line, the command is expected, that line stands in the file, and the snapshot was validated |
| ProbeSupport.MergedStatusMeans | bwapi/Runtime/RemasteredRuntimeBackend.cpp:747-806 | After the merge a command counts as live exactly when it is listed, every row of the prefix is good, and a row spells it |
| LiveEvidence.EvidenceList.MergeLive | bwapi/Runtime/RemasteredRuntimeBackend.cpp:747-763 | The merging loop replaces the first entry of each name |
| LiveEvidence.MergeKeepsNames | bwapi/Runtime/RemasteredRuntimeBackend.cpp:747-763 | Merging preserves the sequence of names |
| LiveEvidence.MergeTakesEffect | bwapi/Runtime/RuntimeCommandSurface.cpp:216-231 | After merging, the status looked up for a merged name is the merged one |
| LiveEvidence.LiveOnlyFromRows | bwapi/Runtime/RemasteredRuntimeBackend.cpp:765-806 | A live-proven entry after the merge has a proven row for that very command |
| RemasteredBackend.Backend.Probe | bwapi/Runtime/RemasteredRuntimeBackend.cpp:824-869 | The probe's steps, in their order, gather exactly the specified result; its verdict is the claim, an available executor, accessible memory when needed, and no preflight errors |
| RemasteredBackend.Backend.Open | bwapi/Runtime/RemasteredRuntimeBackend.cpp:871-889 | Opening succeeds exactly when the probe is supported; otherwise the state is Failed |
| RemasteredBackend.Backend.Close | bwapi/Runtime/RemasteredRuntimeBackend.cpp:891-894 | Closing always leads to Closed |
| RemasteredBackend.LiveUnitsComeFromRows | bwapi/Runtime/RemasteredRuntimeBackend.cpp:824-859 | After a probe a live-proven unit command has its own proven row |
| RemasteredBackend.LiveActionsComeFromRows | bwapi/Runtime/RemasteredRuntimeBackend.cpp:824-859 | The same for game actions |
| RemasteredBackend.ProbeKeepsEvidenceNames | bwapi/Runtime/RemasteredRuntimeBackend.cpp:765-806 | A probe keeps the sequence of evidence names |
| RemasteredBackend.ProbeCapabilities | bwapi/Runtime/RemasteredRuntimeBackend.cpp:824-859 | A probe offers a capability exactly when the manifest does, memory opens and it is the shared-memory client, or an unobstructed bridge in validated mode proves it |
| ProbeSupport.SupportIsExact | bwapi/Runtime/RemasteredRuntimeBackend.cpp:824-869 | A probe is supported exactly when every preflight check passes, the contract with the bridge's proofs is valid with production evidence, the counts suffice, every command of the surface is live by its own row, and every required capability is offered |
| RemasteredBackend.SupportMeansProven | bwapi/Runtime/RemasteredRuntimeBackend.cpp:861-869 | Support implies all required proofs, a valid contract with production evidence, and for every unit command a proof line and snapshot of its own |
| RemasteredBackend.SupportMeansActionsProven | bwapi/Runtime/RemasteredRuntimeBackend.cpp:861-869 | The same proof line and snapshot for every game action |
| RemasteredBackend.SupportLeavesNoGaps | bwapi/Runtime/RuntimeImplementationGap.cpp:67-201 | A supported probe leaves nothing for the gap report |
| RemasteredBackend.ShippedIsNeverSupported | bwapi/Runtime/RuntimeExecutor.cpp:1196-1203 | As shipped, no probe is ever supported |
| RemasteredBackend.ShippedNeverOpens | bwapi/Runtime/RemasteredRuntimeBackend.cpp:871-899 | As shipped, no sequence of open and close calls reaches the open state |
| RuntimeCommandQueue.Queue.Enqueue | bwapi/Runtime/RuntimeCommandQueue.cpp:32-56 | Accepts exactly the known commands and appends them |
| RuntimeCommandQueue.Queue.Drain | bwapi/Runtime/RuntimeCommandQueue.cpp:58-63 | Hands out everything pending, in order, and empties the queue |
| RuntimeCommandQueue.QueuedMeans | bwapi/Runtime/RuntimeCommandQueue.cpp:32-56 | A request is queued exactly when it names a unit command of the surface for a non-negative unit, or a game action of the surface |
| RuntimeCommandQueue.PayloadsReadBack | bwapi/Runtime/RuntimeExecutor.cpp:2210-2218 | The text records of queued commands decode back to exactly those commands, in order |
| RuntimeCommandQueue.PayloadsAreUnique | bwapi/Runtime/RuntimeExecutor.cpp:2210-2218 | No two lists of queued commands have the same records |
| CommandText.SerializeCommand | bwapi/Runtime/RuntimeExecutor.cpp:2210-2218 | Writes kind, name, target and arguments between bars |
| CommandText.SerializeArguments | bwapi/Runtime/RuntimeExecutor.cpp:2198-2208 | The loop joins decimal numbers with commas |
| CommandText.SerializeReadsBack | bwapi/Runtime/RuntimeExecutor.cpp:2198-2218 | Every command whose name holds no bar reads back, negative numbers and empty argument lists included |
| CommandText.RecordLooks | bwapi/Runtime/RuntimeExecutor.cpp:2210-2218 | One record spelled out, with its order of parts |
| CommandText.DecimalReadsBack | bwapi/Runtime/RuntimeExecutor.cpp:2198-2208 | Decimal text of any integer reads back |
| Submission.CheckProof | bwapi/Runtime/RuntimeExecutor.cpp:2323-2396 | The missing list and its judgement compute one decision |
| Submission.NoManifestProblemMeans | bwapi/Runtime/RuntimeExecutor.cpp:2266-2321 | The checks find no manifest problem exactly when the manifest fits the runtime, is valid and declares every command, or there is none and the runtime is not Remastered or its bridge proves the surface; for queued commands the names of the built-in surface never refuse |
| Submission.ClearedIsAdmitted | bwapi/Runtime/RuntimeExecutor.cpp:2770-2880 | A cleared submission's ready file is one whose proofs are applied to the contract, and its manifest, if any, fits and declares every command |
| Submission.Executor.SubmitResident | bwapi/Runtime/RuntimeExecutor.cpp:2522-2561 | One record per command until one fails: exactly a prefix, all of them on success |
| Submission.Executor.SubmitToTurnBuffer | bwapi/Runtime/RuntimeExecutor.cpp:2882-2889 | The direct branch leaves the visible turn buffer as it was on every failure before the count write and appends the encodings on success; the audit gains their rows, or nothing on a refusal |
| Submission.Executor.Submit | bwapi/Runtime/RuntimeExecutor.cpp:2770-2912 | A refused submission changes nothing but the heartbeat store and answers its first problem; a cleared one leaves exactly the trace of its route: records, file lines, or the turn buffer's new bytes and audit rows |
| Submission.SubmittedReachesTheGame | bwapi/Runtime/RuntimeExecutor.cpp:2770-2912 | A submission that succeeds on the turn-buffer route is an append on the game's queue of decoded commands that mean the submitted ones, and its audit rows tell where in memory each stands |
| Submission.ClearedMeans | bwapi/Runtime/RuntimeExecutor.cpp:2323-2396 | A cleared submission has queued commands, a validated attach proof and a sink |
| SubmissionRoutes.ClearedIsExact | bwapi/Runtime/RuntimeExecutor.cpp:2770-2880 | A submission is let through exactly when every command can be queued, its surface is declared, the bridge serves this runtime, the heartbeat is not rejected and the proofs suffice, each stated on the file's rows |
| SubmissionRoutes.RefusalIsTrue | bwapi/Runtime/RuntimeExecutor.cpp:2770-2880 | A refused submission answers a reason that is true of its commands, manifest, bridge, heartbeat or proofs |
| SubmissionRoutes.ProofProblemMeans | bwapi/Runtime/RuntimeExecutor.cpp:2323-2396 | The proofs suffice exactly in validated mode with a validated attach, and either a validated issue-commands proof with an active receiver or a playing adapter's queue, or that queue alone when the line is absent |
| SubmissionRoutes.RouteMeans | bwapi/Runtime/RuntimeExecutor.cpp:2881-2912 | The turn buffer at the two addresses the rows tell when no receiver is active, else the resident queue a row names, else the command file |
| Submission.OtherRoutesNeedIssueCommands | bwapi/Runtime/RuntimeExecutor.cpp:2881-2897 | The turn buffer and the command file need a validated issue-commands proof |
| Submission.UnprovenGoesResident | bwapi/Runtime/RuntimeExecutor.cpp:2367-2391 | Without that proof a cleared submission goes to the resident queue, under a validated attach, an active adapter and an active match |
| Submission.UnprovenLeavesPrefix | bwapi/Runtime/RuntimeExecutor.cpp:2770-2912 | Without that proof, whatever happens, turn buffer and command file are untouched and the resident queue gains exactly the decodable records of a prefix, of all commands on success |
| Heartbeat.StateFile.Validate | bwapi/Runtime/RuntimeExecutor.cpp:1790-1827 | Rejects exactly a newer ready file without a larger heartbeat from the same process; writes exactly on a larger heartbeat or a newer file, when the state file opens |
| Heartbeat.WritesAscend | bwapi/Runtime/RuntimeExecutor.cpp:1790-1827 | For one process every write over any run of checks raises the stored heartbeat |
| Heartbeat.OwnStoreFollowsProgress | bwapi/Runtime/RuntimeExecutor.cpp:1803-1826 | The store of one process changes exactly when it opens and a considered heartbeat is larger, and then holds that heartbeat and time |
| Heartbeat.NewerFileNeedsProgress | bwapi/Runtime/RuntimeExecutor.cpp:1803-1822 | A rejection keeps the store; a newer ready file is accepted exactly with a larger heartbeat than the stored one, hence above all written before |
| Heartbeat.WriteWithoutProgress | bwapi/Runtime/RuntimeExecutor.cpp:1803-1826 | A heartbeat that brings no progress is written exactly when the check is considered, the store opens, is damaged or another process's, and the ready file is newer than it |
| Heartbeat.ProgressIsPerProcess | bwapi/Runtime/RuntimeExecutor.cpp:1803-1826 | A concrete write that lowers the heartbeat stored for another process |
| JobScheduler.RecommendedJobs | tools/guarded_parallel.py:183-191 | The budget is never negative and a positive one is at most the maximum |
| JobScheduler.BudgetFits | tools/guarded_parallel.py:183-191 | A positive budget k satisfies k * per_job + min_free <= available, and one job more would not unless the maximum says so |
| JobScheduler.EveryJobIsSomewhere | tools/guarded_parallel.py:231-310 | At every poll every job is in exactly one of pending, running, finished, failed to start or dropped; taken in list order; running bounded; drops only after a failure under stop-on-failure |
| JobScheduler.ExitCodesMean | tools/guarded_parallel.py:231-319 | What exits 0, 1, 2 and 3 imply about every job |
| JobScheduler.TimeoutMeans | tools/guarded_parallel.py:262-280 | Exit 3 ends at a poll with jobs pending, none running and no budget; with waiting, that held at every poll since one at least max_wait_seconds earlier |
| JobScheduler.ClockShowsStretch | tools/guarded_parallel.py:262-282 | The waiting clock is set exactly during a stretch of such polls and shows when the stretch began |
| JobScheduler.TurnIsSound | tools/guarded_parallel.py:242-310 | One turn of the loop keeps the invariant; giving up means nothing runs and the budget is zero |
| JobTurns.TurnMeans | tools/guarded_parallel.py:242-310 | What one turn does: which jobs it reaps and how it notes them, the budget it computes, which jobs it starts or drops, the newest one it terminates |
| JobTurns.AdmitMeans | tools/guarded_parallel.py:285-310 | Jobs are started from the front of the pending list up to the budget; a failed start counts and under stop-on-failure drops the rest |
| JobTurns.ReapMeans | tools/guarded_parallel.py:243-260 | Polling keeps exactly the jobs still running, in order, and notes the others with their exit codes |
| JobScheduler.Scheduler.PollRunning | tools/guarded_parallel.py:243-256 | The polling loop partitions the running list and notes exits |
| JobScheduler.Scheduler.StartJobs | tools/guarded_parallel.py:290-299 | The starting loop takes jobs from the front up to the budget |
| JobScheduler.Scheduler.TakeTurn | tools/guarded_parallel.py:243-299 | One turn polls, drops, checks the budget and the waiting clock, terminates and starts in that order, and leaves exactly the resulting state |
| JobScheduler.Scheduler.Run | tools/guarded_parallel.py:231-319 | For every list of polls the loop ends with exactly the exit code and state of the scheduler machine that the lemmas are about |
| StringScan.FindAsciiOffsets | tools/runtime_binary_anchors.cpp:563-583 | Exactly all occurrences, overlapping ones included, in ascending order |
| StringScan.EnclosingCStringStart | tools/runtime_binary_anchors.cpp:590-598 | Widens to the start of the printable text before the offset |
| StringScan.EnclosingCStringValue | tools/runtime_binary_anchors.cpp:600-610 | The maximal printable text from the start on |
| StringScan.FindMatchingPrintableStrings | tools/runtime_binary_anchors.cpp:612-663 | Exactly the matching runs up to the limit, in order, with their text |
| StringScan.ScansCompared | tools/runtime_binary_anchors.cpp:563-663 | For every nonempty anchor: the run scan finds exactly the printable-anchor strings of at least four bytes that the anchor scan finds |
| StringScan.ScansAgree | tools/runtime_binary_anchors.cpp:563-663 | For a printable anchor of at least four bytes the two scans find the same strings |
| StringScan.ScansCanDiffer | tools/runtime_binary_anchors.cpp:563-663 | Concrete inputs on which an unprintable or a short anchor makes them differ |
| CodeSweep.DecodedFits | tools/runtime_memory_probe.cpp:373-447 | A decoded reference lies within the buffer |
| CodeSweep.Sweep | tools/runtime_memory_probe.cpp:1195-1276 | The sweep loop with its skips computes the event list |
| CodeSweep.SweepInOrder | tools/runtime_memory_probe.cpp:1195-1276 | Events lie in the buffer, are disjoint and ascend |
| CodeSweep.SweepMissesNothing | tools/runtime_memory_probe.cpp:1195-1276 | A decodable offset is an event or lies inside one |
| CodeSweep.ScanXrefs | tools/runtime_memory_probe.cpp:1370-1433 | The exhaustive scan with its needle loop computes the match list |
| CodeSweep.DecodersAgree | tools/runtime_memory_probe.cpp:1370-1433 | At every offset the xref scan sees exactly the shared forms the sweep's decoder sees, with the same target |
| CodeSweep.SweepEventIsReported | tools/runtime_memory_probe.cpp:1370-1433 | Every shared-form event of the sweep is reported by the xref scan for its target |
| CodeSweep.MatchIsSwept | tools/runtime_memory_probe.cpp:1195-1276 | Every match of the xref scan is an event of the sweep or stands inside one |
| CodeSweep.AssembledDecodes | tools/runtime_memory_probe.cpp:382-398 | An instruction of any of the known forms assembled for a target, immediate bytes and REX prefix included (Intel SDM volume 2A, section 2.2.1.6), decodes to that target, its whole length and its kind |
| CodeSweep.FormDecodes | tools/runtime_memory_probe.cpp:382-447 | Whatever starts like a known form and fits decodes with its length, its kind and the target its displacement gives |
| CodeSweep.DecodedHasForm | tools/runtime_memory_probe.cpp:382-447 | Nothing else decodes |
| CodeSweep.AssembledIsSwept | tools/runtime_memory_probe.cpp:1195-1276 | An assembled instruction anywhere in a buffer is reported at its own address with its target, or lies inside an earlier event |

## Left out

- Game queries inside opcode handlers (unit counts, races, map and resource conditions) are arbitrary answers supplied with each step; nothing about them is claimed.
- AiScriptHost.ScriptHost.UpdateScripts: is stated for scripts with a closed set of boundaries and for a finite list of game answers, because other scripts read outside their buffer, which the source leaves undefined, and a script may loop for ever.
- AiScriptThread.AiThread.SaveDebug: keeps only which opcodes were logged, not the formatted text.
- Attack group number, attack time and the other controller fields that no opcode of the model reads.
- LoadAIBinary, the lookup of a script by name, drawing, threadId, towns and locations of threads.
- Two's-complement wrap-around of script offsets: offsets stay inside the script in every safe run, so it never occurs there.
- In DEBUG a thread that is retrying would not read the logged string; the model asks for a terminated string there in any case.
- TurnBuffer.SubmitDirect: trusts a count write that reports four bytes written to have written them; the source does not read it back, so a count write that reports failure may still have happened. The game does not run between the steps.
- CommandEncoder: the texts of rejection reasons.
- Contract warnings, and contractContainsFixtureEvidence, which only words a message.
- BridgeOrder.ApplyIgnoresOrder: speaks of validators that depend on which lines the file has and on first values of keys; other files a validator opens, such as queues and snapshots, are part of the validator. BridgeOrderExample reduces the attach validator to its test of the executor key.
- Validators of individual proofs, snapshots and resident queues, number and address parsing, path normalisation and containment, process discovery and memory access are parameters of the model.
- Messages are values, not texts: two errors are the same when they say the same thing about the same entry. The positions of details in a gap are kept, their wording is not.
- A ready file and the queue files are taken not to change during one call.
- RemasteredBackend.Backend.Probe: the parity contract and the loaded manifest are inputs; the unsupported-reason text is not modelled.
- Submission.Executor.SubmitResident: the audit file is not modelled; a record is its payload, without the queue header, sequence numbers and capacity, whose effect is that an append may fail.
- Heartbeat.StateFile.Validate: a write either replaces the whole state file or leaves it.
- JobScheduler.RecommendedJobs: uses integer floor division; the source divides in floating point, which agrees for memory sizes below two to the power 53.
- JobScheduler.Scheduler.Run: loading jobs from a file, printing and sleeping between polls; a run is as long as the list of observed polls.
- CodeSweep.Sweep: the limit on printed events and the region look-ups, which do not affect the sweep; addresses wrap at 64 bits where the source casts.
- CodeSweep.ScanXrefs: one chunk of one region; the limit on printed matches.
- StringScan.FindMatchingPrintableStrings: the mapping of offsets to addresses. The Mach-O parser, the RIP and pointer cross-reference scans of the anchor tool, and the diff and pointer-chain modes of the memory probe are not modelled.
- The resident bridge and queue internals, the manifest loader, documentation generators, launcher, injector, memory editor, APM and FPS counters, and unit control: plumbing or finite tables.
