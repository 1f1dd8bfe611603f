/**
  The command sinks a ready file can offer: an active command receiver, the addresses of the
  game's turn buffer, or a resident command queue.  The first two stand on bindings whose
  evidence is the issue-commands proof.
 */
module CommandSinks {
  import opened Common
  import opened Evidence
  import opened BridgeProofs

  const COUNT_BINDING := "BW::BWDATA::sgdwBytesInCmdQueue"
  const BUFFER_BINDING := "BW::BWDATA::TurnBuffer"
  const TRANSPORT_BINDING := "shared-memory-client-transport"
  const ACTIVE_RECEIVER_LINE := "command.receiver=active"
  const RUNTIME_SINK_LINE := "command.sink=runtime-command-queue-v1"

  function KindText(kind: BindingKind): string {
    match kind
    case DataAddress => "data-address"
    case FunctionAddress => "function-address"
    case ImportedFunction => "imported-function"
    case StructureLayout => "structure-layout"
    case HookPoint => "hook-point"
    case CommandQueue => "command-queue"
    case Transport => "transport"
  }

  /** The evidence of a binding row of the given kind, when it is accepted and proven. */
  function ProvenEvidence(lines: seq<string>, lib: Library, name: string, kind: BindingKind): Option<string> {
    var value := FirstValue(lines, BINDING_PREFIX + name);
    var prefix := KindText(kind) + "|";
    if !(prefix <= value) then None
    else
      var evidence := value[|prefix|..];
      if AllowedForBinding(name, kind, evidence) && ProofHolds(lines, lib, evidence) then Some(evidence) else None
  }

  predicate ProofBackedBinding(lines: seq<string>, lib: Library, name: string, kind: BindingKind) {
    ProvenEvidence(lines, lib, name, kind).Some?
  }

  predicate ActiveSink(lines: seq<string>, lib: Library) {
    && ACTIVE_RECEIVER_LINE in lines && RUNTIME_SINK_LINE in lines
    && ProofBackedBinding(lines, lib, COUNT_BINDING, CommandQueue)
    && ProofBackedBinding(lines, lib, BUFFER_BINDING, CommandQueue)
  }

  /** The address at the end of a command-queue binding's evidence. */
  function BindingAddress(lines: seq<string>, lib: Library, parseAddress: string -> Option<nat>, name: string)
    : Option<nat>
  {
    match ProvenEvidence(lines, lib, name, CommandQueue)
    case None => None
    case Some(evidence) =>
      var colon := LastIndexOf(evidence, ':');
      if colon == -1 || colon + 1 >= |evidence| then None else parseAddress(evidence[colon + 1..])
  }

  /** Where the count word and the turn buffer are. */
  function DirectSink(lines: seq<string>, lib: Library, parseAddress: string -> Option<nat>): Option<(nat, nat)> {
    match (BindingAddress(lines, lib, parseAddress, COUNT_BINDING),
           BindingAddress(lines, lib, parseAddress, BUFFER_BINDING))
    case (Some(count), Some(buffer)) => Some((count, buffer))
    case _ => None
  }

  /** Both kinds of runtime sink need a validated issue-commands proof. */
  lemma SinksNeedIssueCommands(lines: seq<string>, lib: Library, parseAddress: string -> Option<nat>)
    requires ActiveSink(lines, lib) || DirectSink(lines, lib, parseAddress).Some?
    ensures ISSUE_COMMANDS in lines && lib.validated(lines, ISSUE_COMMANDS)
  {
    hide ProvenEvidence, FirstValue, LastIndexOf;
    EvidenceIsIssueCommands(lines, lib, COUNT_BINDING);
  }

  lemma EvidenceIsIssueCommands(lines: seq<string>, lib: Library, name: string)
    ensures ProvenEvidence(lines, lib, name, CommandQueue).Some? ==>
              ISSUE_COMMANDS in lines && lib.validated(lines, ISSUE_COMMANDS)
  {
    hide FirstValue, Allowed, ProofLine;
  }
}
