/**
  The objects of the script engine.  AiThread is the mutable script thread; every method
  is specified by the machine's function on the thread's value.
 */
module AiScriptThread {
  import opened Common
  import opened AiScriptCode
  import M = AiScriptMachine

  class AiThread {
    const serial: nat
    var scriptOffset: nat
    var sleepTime: nat
    var killable: bool
    var wantKilled: bool
    var bytesRead: nat
    var retryBlock: bool
    var callstack: seq<nat>
    var debugQueue: seq<Byte>

    function Value(): M.Thread
      reads this
    {
      M.Thread(serial, scriptOffset, sleepTime, killable, wantKilled, bytesRead, retryBlock,
               callstack, debugQueue)
    }

    constructor (serial: nat, startBlock: nat)
      ensures Value() == M.NewThread(serial, startBlock)
    {
      this.serial := serial;
      scriptOffset, sleepTime := startBlock, 0;
      killable, wantKilled, retryBlock := false, false, false;
      bytesRead := 0;
      callstack, debugQueue := [], [];
    }

    method ReadByte(code: Code) returns (value: Byte)
      requires scriptOffset < |code|
      modifies this
      ensures value == code[old(scriptOffset)]
      ensures Value() == M.Advance(old(Value()), 1)
    {
      value := code[scriptOffset];
      scriptOffset := scriptOffset + 1;
      bytesRead := bytesRead + 1;
    }

    /** readTuple: operands are read one after the other. */
    method ReadOperands(code: Code, width: nat) returns (operands: seq<Byte>)
      requires scriptOffset + width <= |code|
      modifies this
      ensures operands == code[old(scriptOffset)..old(scriptOffset) + width]
      ensures Value() == M.Advance(old(Value()), width)
    {
      operands := [];
      while |operands| < width
        invariant |operands| <= width
        invariant operands == code[old(scriptOffset)..old(scriptOffset) + |operands|]
        invariant Value() == M.Advance(old(Value()), |operands|)
        decreases width - |operands|
      {
        var b := ReadByte(code);
        operands := operands + [b];
      }
    }

    /** The number of frames left before this call; one of them is used up. */
    method Sleep() returns (left: nat)
      modifies this
      ensures left == old(sleepTime)
      ensures Value() == old(Value()).(sleep := if left > 0 then left - 1 else 0)
    {
      left := sleepTime;
      if sleepTime > 0 {
        sleepTime := sleepTime - 1;
      }
    }

    method SetSleep(amount: nat)
      modifies this
      ensures Value() == old(Value()).(sleep := old(sleepTime) + amount)
    {
      sleepTime := sleepTime + amount;
    }

    method KillThread()
      modifies this
      ensures Value() == M.Kill(old(Value()))
    {
      wantKilled := true;
    }

    /** At most 33 entries are kept; a thread that is retrying adds none. */
    method SaveDebug(op: Byte)
      modifies this
      ensures Value() == M.SaveDebug(old(Value()), op)
      ensures old(|debugQueue|) <= 33 ==> |debugQueue| <= 33
    {
      if retryBlock {
        return;
      }
      if |debugQueue| > 32 {
        debugQueue := debugQueue[1..];
      }
      debugQueue := debugQueue + [op];
    }

    method Retry() returns (goOn: bool)
      requires bytesRead <= scriptOffset
      modifies this
      ensures !goOn && Value() == M.Retry(old(Value()))
    {
      scriptOffset := scriptOffset - bytesRead;
      SetSleep(30);
      bytesRead := 0;
      retryBlock := true;
      return false;
    }

    method NoRetry() returns (goOn: bool)
      modifies this
      ensures goOn && Value() == M.NoRetry(old(Value()))
    {
      bytesRead := 0;
      retryBlock := false;
      return true;
    }

    method SetScriptOffset(offset: nat)
      modifies this
      ensures Value() == old(Value()).(offset := offset)
    {
      scriptOffset := offset;
    }

    method Call(target: nat)
      modifies this
      ensures Value() == M.PushCall(old(Value()), target)
    {
      callstack := callstack + [scriptOffset];
      SetScriptOffset(target);
    }

    method Ret() returns (ok: bool)
      modifies this
      ensures ok == (old(callstack) != [])
      ensures Value() == if ok then M.PopCall(old(Value())) else old(Value())
    {
      if callstack == [] {
        return false;
      }
      SetScriptOffset(callstack[|callstack| - 1]);
      callstack := callstack[..|callstack| - 1];
      return true;
    }

    /** What a handler does to the thread that runs it, once its operands are decoded. */
    method Perform(flow: M.Flow, ghost c: M.Controller) returns (goOn: bool)
      requires !flow.BadString? && (flow.Block? ==> bytesRead <= scriptOffset)
      modifies this
      ensures var o := M.Follow(flow, old(Value()), c);
              Value() == o.thread && goOn == o.goOn
    {
      match flow
      case Jump(target) =>
        SetScriptOffset(target);
        goOn := NoRetry();
      case CallTo(target) =>
        Call(target);
        goOn := NoRetry();
      case Ret =>
        var ok := Ret();
        if !ok {
          KillThread();
        }
        var _ := NoRetry();
        goOn := ok;
      case BecomeKillable =>
        killable := true;
        goOn := NoRetry();
      case Die =>
        KillThread();
        var _ := NoRetry();
        goOn := false;
      case Pause =>
        var _ := NoRetry();
        goOn := false;
      case Block =>
        goOn := Retry();
      case Fall =>
        goOn := NoRetry();
      case Fork(_) =>
        goOn := NoRetry();
      case KillAll =>
        goOn := NoRetry();
    }
  }
}
