/** The pending commands of one submission: checked on entry, drained once. */
module RuntimeCommandQueue {
  import opened Common
  import opened CommandForms
  import opened CommandSurface
  import opened CommandText

  datatype QueueFault = NameEmpty | UnitCommandUnknown | TargetNegative | GameActionUnknown | KindUnknown

  /** Why a request is not queued, if it is not. */
  function FaultOfRequest(r: Request): Option<QueueFault> {
    if r.name == "" then Some(NameEmpty)
    else
      match r.kind
      case UnitCommand =>
        if r.name !in UnitCommands() then Some(UnitCommandUnknown)
        else if r.target < 0 then Some(TargetNegative)
        else None
      case GameAction => if r.name !in GameActions() then Some(GameActionUnknown) else None
      case UnknownKind => Some(KindUnknown)
  }

  /**
    A request is queued exactly when it names a unit command of the surface for a
    non-negative unit, or a game action of the surface.
   */
  lemma QueuedMeans(r: Request)
    ensures FaultOfRequest(r).None?
            <==> || (r.kind.UnitCommand? && r.name in UnitCommands() && r.target >= 0)
                 || (r.kind.GameAction? && r.name in GameActions())
    ensures r.name == "" ==> FaultOfRequest(r) == Some(NameEmpty)
    ensures r.name != "" && r.kind.UnitCommand? && r.name in UnitCommands() && r.target < 0 ==>
              FaultOfRequest(r) == Some(TargetNegative)
  {
    NamesAreNotEmpty();
    hide UnitCommands, GameActions;
  }

  lemma NamesAreNotEmpty()
    ensures "" !in UnitCommands() && "" !in GameActions()
  {
  }

  class Queue {
    var pending: seq<Request>

    constructor ()
      ensures pending == []
    {
      pending := [];
    }

    method Enqueue(r: Request) returns (fault: Option<QueueFault>, size: nat)
      modifies this
      ensures fault == FaultOfRequest(r) && size == |pending|
      ensures pending == if fault.None? then old(pending) + [r] else old(pending)
    {
      hide UnitCommands, GameActions;
      fault := FaultOfRequest(r);
      if fault.Some? {
        return fault, |pending|;
      }
      pending := pending + [r];
      return None, |pending|;
    }

    method Drain() returns (drained: seq<Request>)
      modifies this
      ensures drained == old(pending) && pending == []
    {
      drained := pending;
      pending := [];
    }
  }

  // ---- lists of requests ----

  predicate AllQueued(commands: seq<Request>) {
    forall i :: 0 <= i < |commands| ==> FaultOfRequest(commands[i]).None?
  }

  /** The fault of the first request that is not queued. */
  function FirstFault(commands: seq<Request>): (fault: Option<QueueFault>)
    ensures fault.None? <==> AllQueued(commands)
  {
    if commands == [] then None
    else if FaultOfRequest(commands[0]).Some? then FaultOfRequest(commands[0])
    else
      assert forall i :: 1 <= i < |commands| ==> commands[i] == commands[1..][i - 1];
      FirstFault(commands[1..])
  }

  /** The enqueue loop of a submission. */
  method EnqueueAll(commands: seq<Request>) returns (queue: Queue, fault: Option<QueueFault>)
    ensures fresh(queue)
    ensures fault == FirstFault(commands)
    ensures fault.None? ==> queue.pending == commands
  {
    hide FaultOfRequest;
    queue := new Queue();
    for i := 0 to |commands|
      invariant queue.pending == commands[..i]
      invariant FirstFault(commands[i..]) == FirstFault(commands)
    {
      assert commands[i..][0] == commands[i] && commands[i..][1..] == commands[i + 1..];
      var rejected, _ := queue.Enqueue(commands[i]);
      if rejected.Some? {
        return queue, rejected;
      }
    }
    assert commands[..|commands|] == commands;
    return queue, None;
  }

  // ---- payloads ----

  /** The text records of a list of commands. */
  function Payloads(commands: seq<Request>): (texts: seq<string>)
    ensures |texts| == |commands|
  {
    seq(|commands|, i requires 0 <= i < |commands| => Serialize(commands[i]))
  }

  function ParseAll(texts: seq<string>): Option<seq<Request>> {
    if texts == [] then Some([])
    else
      match (ParseAll(texts[..|texts| - 1]), Parse(texts[|texts| - 1]))
      case (Some(rs), Some(r)) => Some(rs + [r])
      case _ => None
  }

  lemma QueuedReadsBack(r: Request)
    requires FaultOfRequest(r).None?
    ensures Parse(Serialize(r)) == Some(r)
  {
    UnitNamesHaveNoBar();
    ActionNamesHaveNoBar();
    hide UnitCommands, GameActions, Parse, Serialize;
    SerializeReadsBack(r);
  }

  /** The records of queued commands decode to exactly those commands, in order. */
  lemma {:induction false} PayloadsReadBack(commands: seq<Request>)
    requires AllQueued(commands)
    ensures ParseAll(Payloads(commands)) == Some(commands)
  {
    hide FaultOfRequest, Parse, Serialize;
    if commands == [] {
    } else {
      var n := |commands| - 1;
      PayloadsReadBack(commands[..n]);
      assert Payloads(commands)[..n] == Payloads(commands[..n]);
      QueuedReadsBack(commands[n]);
      assert commands == commands[..n] + [commands[n]];
    }
  }

  /** No two lists of queued commands have the same records. */
  lemma PayloadsAreUnique(a: seq<Request>, b: seq<Request>)
    requires AllQueued(a) && AllQueued(b) && Payloads(a) == Payloads(b)
    ensures a == b
  {
    hide AllQueued, Payloads, ParseAll;
    PayloadsReadBack(a);
    PayloadsReadBack(b);
  }
}
