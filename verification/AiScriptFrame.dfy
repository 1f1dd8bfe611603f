/**
  Frames and answers of a run: the answers the game gave to the opcodes that were executed,
  the pass law for a run that spans exactly one frame, and how the answers decide a run.
 */
module AiScriptFrame {
  import opened Common
  import opened AiScriptCode
  import opened AiScriptMachine
  import opened AiScriptSchedule

  function AnswerOf(e: Event, input: Input): seq<World> {
    if e.Executed? && input.Tick? then [input.world] else []
  }

  /** What the game answered to the opcodes executed during a run, in order. */
  function Answers(binary: Option<Script>, vm: Vm, inputs: seq<Input>): seq<World>
    requires vm.ctl.Shaped() && Run(binary, vm, inputs).Next?
    decreases |inputs|
  {
    if inputs == [] then []
    else
      var n := |inputs| - 1;
      Answers(binary, vm, inputs[..n]) + AnswerOf(Run(binary, vm, inputs).event, inputs[n])
  }

  lemma RunExtends(binary: Option<Script>, vm: Vm, inputs: seq<Input>, input: Input)
    requires vm.ctl.Shaped() && Run(binary, vm, inputs).Next?
    ensures Run(binary, vm, inputs + [input]) == Step(binary, Run(binary, vm, inputs).vm, input)
    ensures var r := Step(binary, Run(binary, vm, inputs).vm, input);
            r.Next? ==>
              && Answers(binary, vm, inputs + [input]) == Answers(binary, vm, inputs) + AnswerOf(r.event, input)
              && Trace(binary, vm, inputs + [input]) == Trace(binary, vm, inputs) + [r.event]
  {
    hide Step;
    assert (inputs + [input])[..|inputs|] == inputs;
  }

  function Passes(tr: seq<Event>): nat {
    if tr == [] then 0 else Passes(tr[..|tr| - 1]) + if tr[|tr| - 1].PassBegun? then 1 else 0
  }

  lemma StepCountsFrames(binary: Option<Script>, vm: Vm, input: Input)
    requires vm.ctl.Shaped() && Step(binary, vm, input).Next?
    ensures var r := Step(binary, vm, input);
            r.vm.frame == vm.frame + if r.event.PassBegun? then 1 else 0
  {
    hide ReadOpcode, MarkKillable;
  }

  /** The frame counter counts the passes begun. */
  lemma {:induction false} FramesArePasses(binary: Option<Script>, vm: Vm, inputs: seq<Input>)
    requires vm.ctl.Shaped() && Run(binary, vm, inputs).Next?
    ensures Run(binary, vm, inputs).vm.frame == vm.frame + Passes(Trace(binary, vm, inputs))
    decreases |inputs|
  {
    hide Step;
    if inputs == [] {
    } else {
      var n := |inputs| - 1;
      FramesArePasses(binary, vm, inputs[..n]);
      StepCountsFrames(binary, Run(binary, vm, inputs[..n]).vm, inputs[n]);
    }
  }

  lemma {:induction false} NoPasses(tr: seq<Event>)
    requires Passes(tr) == 0
    ensures forall e :: e in tr ==> !e.PassBegun?
  {
    if tr == [] {
    } else {
      NoPasses(tr[..|tr| - 1]);
      assert tr == tr[..|tr| - 1] + [tr[|tr| - 1]];
    }
  }

  /** A run continues from the state its first input leads to. */
  lemma {:induction false} RunSplits(binary: Option<Script>, vm: Vm, input: Input, rest: seq<Input>)
    requires vm.ctl.Shaped() && Step(binary, vm, input).Next? && Step(binary, vm, input).vm.ctl.Shaped()
    requires Run(binary, vm, [input] + rest).Next?
    ensures var r := Step(binary, vm, input);
            && Run(binary, r.vm, rest).Next?
            && Run(binary, r.vm, rest).vm == Run(binary, vm, [input] + rest).vm
            && Trace(binary, vm, [input] + rest) == [r.event] + Trace(binary, r.vm, rest)
    decreases |rest|
  {
    hide Step;
    var r := Step(binary, vm, input);
    if rest == [] {
      assert Run(binary, vm, []) == Next(vm, Idle);
      assert [input] + rest == [] + [input];
      RunExtends(binary, vm, [], input);
    } else {
      var n := |rest| - 1;
      assert ([input] + rest)[..n + 1] == [input] + rest[..n];
      RunSplits(binary, vm, input, rest[..n]);
    }
  }

  lemma {:induction false} PassesOfCons(e: Event, tr: seq<Event>)
    ensures Passes([e] + tr) == Passes(tr) + if e.PassBegun? then 1 else 0
    decreases |tr|
  {
    if tr == [] {
      assert [e] + tr == [] + [e];
    } else {
      var n := |tr| - 1;
      assert ([e] + tr)[..n + 1] == [e] + tr[..n];
      PassesOfCons(e, tr[..n]);
    }
  }

  /** The beginning of a pass visits nothing and keeps nothing. */
  lemma {:induction false} ListsAfterBegin(tr: seq<Event>)
    ensures Visited([PassBegun] + tr) == Visited(tr) && Kept([PassBegun] + tr) == Kept(tr)
    decreases |tr|
  {
    if tr == [] {
      TraceAppend([], PassBegun);
      assert [PassBegun] + tr == [] + [PassBegun];
    } else {
      var n := |tr| - 1;
      assert [PassBegun] + tr == ([PassBegun] + tr[..n]) + [tr[n]];
      assert tr == tr[..n] + [tr[n]];
      TraceAppend([PassBegun] + tr[..n], tr[n]);
      TraceAppend(tr[..n], tr[n]);
      hide Visited, Kept;
      ListsAfterBegin(tr[..n]);
    }
  }

  lemma TickBegins(binary: Option<Script>, vm: Vm, input: Input)
    requires Ordered(vm) && vm.AtBoundary() && input.Tick?
    ensures var v := vm.(todo := vm.done, done := [], frame := vm.frame + 1);
            Step(binary, vm, input) == Next(v, PassBegun) && Ordered(v)
  {
    StepKeepsOrdered(binary, vm, input);
  }

  /**
    The pass law for a frame.  From a pass boundary to a pass boundary, one frame later,
    every thread that was in the list is visited exactly once, in list order, and no other;
    afterwards the list is the threads spawned meanwhile, newest first, followed by the
    visited threads that were not erased.
   */
  lemma FrameIsOnePass(binary: Option<Script>, vm: Vm, inputs: seq<Input>)
    requires Ordered(vm) && vm.AtBoundary() && inputs != [] && inputs[0].Tick?
    requires Run(binary, vm, inputs).Next? && Run(binary, vm, inputs).vm.AtBoundary()
    requires Run(binary, vm, inputs).vm.frame == vm.frame + 1
    ensures var v, tr := Run(binary, vm, inputs).vm, Trace(binary, vm, inputs);
            && Visited(tr) == Serials(vm.done)
            && vm.nextSerial <= v.nextSerial
            && Serials(v.done) == Descending(vm.nextSerial, v.nextSerial) + Kept(tr)
  {
    var v, rest := vm.(todo := vm.done, done := [], frame := vm.frame + 1), inputs[1..];
    assert inputs == [inputs[0]] + rest;
    TickBegins(binary, vm, inputs[0]);
    RunSplits(binary, vm, inputs[0], rest);
    OnlyBegin(binary, vm, v, inputs, rest);
    hide Run, Step, Trace, Visited, Kept, Descending, Serials;
    PassLaw(binary, v, rest);
    ListsAfterBegin(Trace(binary, v, rest));
  }

  /** A run of one frame begins no pass but the first. */
  lemma OnlyBegin(binary: Option<Script>, vm: Vm, v: Vm, inputs: seq<Input>, rest: seq<Input>)
    requires vm.ctl.Shaped() && v.ctl.Shaped()
    requires Run(binary, vm, inputs).Next? && Run(binary, v, rest).Next?
    requires Run(binary, vm, inputs).vm.frame == vm.frame + 1
    requires Trace(binary, vm, inputs) == [PassBegun] + Trace(binary, v, rest)
    ensures forall e :: e in Trace(binary, v, rest) ==> !e.PassBegun?
  {
    hide Run, Trace;
    FramesArePasses(binary, vm, inputs);
    PassesOfCons(PassBegun, Trace(binary, v, rest));
    NoPasses(Trace(binary, v, rest));
  }

  // ---- answers decide the run ----

  predicate Ticks(inputs: seq<Input>) {
    forall i :: 0 <= i < |inputs| ==> inputs[i].Tick?
  }

  /** The next tick executes an opcode and takes an answer. */
  predicate Asks(binary: Option<Script>, vm: Vm) {
    vm.running && vm.todo != [] && binary.Some?
  }

  lemma OnlyAsksTakes(binary: Option<Script>, vm: Vm, input: Input)
    requires vm.ctl.Shaped() && input.Tick? && Step(binary, vm, input).Next?
    ensures AnswerOf(Step(binary, vm, input).event, input) == if Asks(binary, vm) then [input.world] else []
    ensures !Asks(binary, vm) ==> forall w :: Step(binary, vm, Tick(w)) == Step(binary, vm, input)
  {
    hide ReadOpcode, MarkKillable;
  }

  /** What a run has done stays done when it goes on. */
  lemma {:induction false} RunGoesOn(binary: Option<Script>, vm: Vm, inputs: seq<Input>, k: nat)
    requires vm.ctl.Shaped() && k <= |inputs| && Run(binary, vm, inputs).Next?
    ensures Run(binary, vm, inputs[..k]).Next?
    ensures Answers(binary, vm, inputs[..k]) <= Answers(binary, vm, inputs)
    ensures Run(binary, vm, inputs[..k]).vm.frame <= Run(binary, vm, inputs).vm.frame
    decreases |inputs|
  {
    hide Step;
    if k == |inputs| {
      assert inputs[..k] == inputs;
    } else {
      var n := |inputs| - 1;
      assert inputs[..n][..k] == inputs[..k];
      RunGoesOn(binary, vm, inputs[..n], k);
      StepCountsFrames(binary, Run(binary, vm, inputs[..n]).vm, inputs[n]);
    }
  }

  lemma OneMore(binary: Option<Script>, vm: Vm, inputs: seq<Input>, k: nat)
    requires vm.ctl.Shaped() && k < |inputs| && Run(binary, vm, inputs).Next? && Ticks(inputs)
    requires Run(binary, vm, inputs[..k]).Next?
    ensures Run(binary, vm, inputs[..k + 1]) == Step(binary, Run(binary, vm, inputs[..k]).vm, inputs[k])
    ensures Run(binary, vm, inputs[..k + 1]).Next?
    ensures Answers(binary, vm, inputs[..k + 1])
         == Answers(binary, vm, inputs[..k])
            + if Asks(binary, Run(binary, vm, inputs[..k]).vm) then [inputs[k].world] else []
  {
    hide Step, Answers;
    RunGoesOn(binary, vm, inputs, k + 1);
    assert inputs[..k + 1] == inputs[..k] + [inputs[k]];
    RunExtends(binary, vm, inputs[..k], inputs[k]);
    OnlyAsksTakes(binary, Run(binary, vm, inputs[..k]).vm, inputs[k]);
  }

  /** Two runs on compatible answers go through the same states. */
  lemma {:induction false} RunsAgree(binary: Option<Script>, vm: Vm, a: seq<Input>, b: seq<Input>, k: nat)
    requires vm.ctl.Shaped() && Ticks(a) && Ticks(b) && k <= |a| && k <= |b|
    requires Run(binary, vm, a).Next? && Run(binary, vm, b).Next?
    requires Answers(binary, vm, a) <= Answers(binary, vm, b)
    ensures Run(binary, vm, a[..k]).Next? && Run(binary, vm, b[..k]).Next?
    ensures Run(binary, vm, a[..k]).vm == Run(binary, vm, b[..k]).vm
    ensures Answers(binary, vm, a[..k]) == Answers(binary, vm, b[..k])
    decreases k
  {
    hide Step, Run, Answers, Asks;
    if k == 0 {
      RunGoesOn(binary, vm, a, 0);
      assert a[..0] == b[..0];
    } else {
      RunsAgree(binary, vm, a, b, k - 1);
      OneMore(binary, vm, a, k - 1);
      OneMore(binary, vm, b, k - 1);
      RunGoesOn(binary, vm, a, k);
      RunGoesOn(binary, vm, b, k);
      var m := Run(binary, vm, a[..k - 1]).vm;
      OnlyAsksTakes(binary, m, a[k - 1]);
      if Asks(binary, m) {
        var n := |Answers(binary, vm, a[..k - 1])|;
        assert Answers(binary, vm, a)[n] == a[k - 1].world && Answers(binary, vm, b)[n] == b[k - 1].world;
      } else {
        assert Step(binary, m, Tick(b[k - 1].world)) == Step(binary, m, a[k - 1]);
      }
    }
  }

  /** A run on ticks from one pass boundary to the next. */
  ghost predicate WholePass(binary: Option<Script>, vm: Vm, inputs: seq<Input>) {
    && vm.ctl.Shaped() && Ticks(inputs)
    && Run(binary, vm, inputs).Next?
    && Run(binary, vm, inputs).vm.AtBoundary() && Run(binary, vm, inputs).vm.frame == vm.frame + 1
  }

  /** A run that stops in mid-pass for want of an answer had fewer answers than any whole pass needs. */
  lemma AskingNeedsMore(binary: Option<Script>, vm: Vm, inputs: seq<Input>, whole: seq<Input>)
    requires vm.ctl.Shaped() && Ticks(inputs) && Run(binary, vm, inputs).Next?
    requires Run(binary, vm, inputs).vm.frame == vm.frame + 1 && Asks(binary, Run(binary, vm, inputs).vm)
    requires WholePass(binary, vm, whole)
    ensures !(Answers(binary, vm, whole) <= Answers(binary, vm, inputs))
  {
    hide Step, Run, Answers;
    if Answers(binary, vm, whole) <= Answers(binary, vm, inputs) {
      if |whole| <= |inputs| {
        RunsAgree(binary, vm, whole, inputs, |whole|);
        assert whole[..|whole|] == whole;
        StopsAtBoundary(binary, vm, inputs, whole);
      } else {
        RunsAgree(binary, vm, whole, inputs, |inputs|);
        assert inputs[..|inputs|] == inputs;
        OneMore(binary, vm, whole, |inputs|);
        RunGoesOn(binary, vm, whole, |inputs| + 1);
      }
    }
  }

  /** A run of one frame that has passed through the boundary ends there. */
  lemma StopsAtBoundary(binary: Option<Script>, vm: Vm, inputs: seq<Input>, whole: seq<Input>)
    requires vm.ctl.Shaped() && Ticks(inputs) && Run(binary, vm, inputs).Next?
    requires Run(binary, vm, inputs).vm.frame == vm.frame + 1
    requires WholePass(binary, vm, whole) && |whole| <= |inputs|
    requires Run(binary, vm, inputs[..|whole|]).Next?
    requires Run(binary, vm, inputs[..|whole|]).vm == Run(binary, vm, whole).vm
    ensures Run(binary, vm, inputs).vm.AtBoundary()
  {
    hide Run, Answers;
    var k := |whole|;
    assert whole[..k] == whole;
    if k == |inputs| {
      assert inputs[..k] == inputs;
    } else {
      OneMore(binary, vm, inputs, k);
      RunGoesOn(binary, vm, inputs, k + 1);
    }
  }
}
