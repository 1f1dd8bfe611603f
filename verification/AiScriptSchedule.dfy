/**
  Laws of the thread scheduler over whole runs: the thread counter, the order of a pass,
  and exactly when a sleeping thread is next touched.
 */
module AiScriptSchedule {
  import opened Common
  import opened AiScriptCode
  import opened AiScriptMachine

  function Serials(ts: seq<Thread>): (r: seq<nat>)
    ensures |r| == |ts|
  {
    seq(|ts|, i requires 0 <= i < |ts| => ts[i].serial)
  }

  /** The threads the current pass has not reached yet. */
  function Rest(vm: Vm): seq<Thread> {
    if vm.running && vm.todo != [] then vm.todo[1..] else vm.todo
  }

  /** The threads the iterator has moved past, with the one it stands on while running. */
  function Reached(vm: Vm): seq<Thread> {
    if vm.running && vm.todo != [] then vm.done + [vm.todo[0]] else vm.done
  }

  ghost predicate Distinct(s: seq<nat>) {
    forall i, j :: 0 <= i < j < |s| ==> s[i] != s[j]
  }

  ghost predicate Identities(s: seq<nat>, bound: nat) {
    Distinct(s) && forall i :: 0 <= i < |s| ==> s[i] < bound
  }

  ghost predicate Ordered(vm: Vm) {
    && vm.ctl.Shaped()
    && vm.count == |vm.All()|
    && Identities(Serials(vm.All()), vm.nextSerial)
    && (vm.running ==> vm.todo != [])
  }

  lemma FollowKeepsIdentity(flow: Flow, u: Thread, c: Controller)
    ensures var o := Follow(flow, u, c);
            o.Ran? ==> o.thread.serial == u.serial && (u.wantKilled ==> o.thread.wantKilled)
  {
  }

  lemma OpcodeKeepsIdentity(s: Script, t: Thread, ctl: Controller, w: World)
    requires ctl.Shaped()
    ensures var o := ReadOpcode(s, t, ctl, w);
            o.Ran? ==> o.ctl.Shaped() && o.thread.serial == t.serial
                       && (t.wantKilled ==> o.thread.wantKilled)
  {
    hide FlowOf, ControllerEffect, Follow;
    if t.offset < |s.code| && s.code[t.offset] in s.table {
      var op, h := s.code[t.offset], s.table[s.code[t.offset]];
      if t.offset + 1 + h.width <= |s.code| {
        var u := SaveDebug(Advance(t, 1 + h.width), op);
        var flow, c := FlowOf(s.code, h, t.offset + 1, ctl, w), ControllerEffect(s.code, h, t.offset + 1, ctl, w);
        FollowKeepsIdentity(flow, u, c);
        FollowEffects(flow, u, c);
      }
    }
  }

  lemma MarkingKeepsSerials(ts: seq<Thread>)
    ensures Serials(MarkKillable(ts)) == Serials(ts)
  {
  }

  lemma SerialsOfConcat(a: seq<Thread>, b: seq<Thread>)
    ensures Serials(a + b) == Serials(a) + Serials(b)
  {
  }

  function NewSerials(vm: Vm, o: Outcome): seq<nat>
    requires o.Ran?
  {
    if o.spawn.Some? then [vm.nextSerial] else []
  }

  lemma AppliedSerials(vm: Vm, o: Outcome)
    requires vm.todo != [] && o.Ran? && o.thread.serial == vm.todo[0].serial
    ensures var a := Applied(vm, o);
            && Serials(a.todo) == Serials(vm.todo)
            && Serials(a.done) == NewSerials(vm, o) + Serials(vm.done)
            && a.nextSerial == vm.nextSerial + |NewSerials(vm, o)|
            && a.count == vm.count + |NewSerials(vm, o)|
            && a.ctl == o.ctl && a.frame == vm.frame && a.running == vm.running
  {
    var v1 := vm.(todo := [o.thread] + vm.todo[1..], ctl := o.ctl);
    var v2 := if o.spawn.Some? then Spawn(v1, o.spawn.value) else v1;
    MarkingKeepsSerials(v2.done);
    MarkingKeepsSerials(v2.todo);
  }

  /** The serials of a list after a settled opcode: at most one new thread, in front. */
  lemma SettleSerials(vm: Vm, o: Outcome)
    requires vm.running && vm.todo != [] && o.Ran? && o.thread.serial == vm.todo[0].serial
    ensures var v := Settle(vm, o);
            && Serials(Rest(v)) == Serials(Rest(vm))
            && Serials(Reached(v)) == NewSerials(vm, o) + Serials(Reached(vm))
            && v.nextSerial == vm.nextSerial + |NewSerials(vm, o)|
            && v.count == vm.count + |NewSerials(vm, o)|
            && v.ctl == o.ctl && v.frame == vm.frame
            && (v.running ==> v.todo != [])
  {
    AppliedSerials(vm, o);
    var a := Applied(vm, o);
    hide Applied;
    assert a.todo[0].serial == Serials(a.todo)[0] == vm.todo[0].serial;
    assert Serials(a.todo[1..]) == Serials(a.todo)[1..] == Serials(vm.todo[1..]);
    SerialsOfConcat(vm.done, [vm.todo[0]]);
    SerialsOfConcat(a.done, [a.todo[0]]);
    SerialsOfConcat(a.done, [Kill(a.todo[0])]);
  }

  function VisitSerial(e: Event): seq<nat> {
    if e.Skipped? || e.Erased? || e.Started? then [e.serial] else []
  }

  function KeptSerial(e: Event): seq<nat> {
    if e.Skipped? || e.Started? then [e.serial] else []
  }

  function Descending(lo: nat, hi: nat): seq<nat>
    requires lo <= hi
    decreases hi - lo
  {
    if lo == hi then [] else [hi - 1] + Descending(lo, hi - 1)
  }

  /** One step inside a pass consumes at most one unvisited thread, from the front. */
  ghost predicate PassStep(vm: Vm, v: Vm, e: Event) {
    && vm.nextSerial <= v.nextSerial <= vm.nextSerial + 1
    && v.count == vm.count + (v.nextSerial - vm.nextSerial) - (if e.Erased? then 1 else 0)
    && v.ctl.Shaped()
    && VisitSerial(e) + Serials(Rest(v)) == Serials(Rest(vm))
    && Serials(Reached(v))
       == Descending(vm.nextSerial, v.nextSerial) + Serials(Reached(vm)) + KeptSerial(e)
    && v.frame == vm.frame
    && (v.running ==> v.todo != [])
  }

  lemma VisitOrder(loaded: bool, vm: Vm)
    requires !vm.running && vm.todo != [] && vm.ctl.Shaped()
    ensures var r := Visit(loaded, vm); PassStep(vm, r.vm, r.event)
  {
    assert Serials(vm.todo) == [vm.todo[0].serial] + Serials(vm.todo[1..]);
    var r := Visit(loaded, vm);
    assert vm.todo[0].sleep > 0 || !vm.todo[0].wantKilled ==>
      Serials(Reached(r.vm)) == Serials(vm.done) + [vm.todo[0].serial];
  }

  lemma StepOrder(binary: Option<Script>, vm: Vm, input: Input)
    requires vm.ctl.Shaped() && (vm.running ==> vm.todo != [] && binary.Some?)
    ensures var r := Step(binary, vm, input);
            r.Next? && !r.event.PassBegun? ==>
              PassStep(vm, r.vm, r.event) && (r.vm.running ==> binary.Some?)
  {
    var r := Step(binary, vm, input);
    if r.Next? && !r.event.PassBegun? {
      assert Descending(vm.nextSerial, vm.nextSerial + 1) == [vm.nextSerial];
      if input.Launch? {
        assert vm.AtBoundary() ==> Serials(Spawn(vm, input.start).done) == [vm.nextSerial] + Serials(vm.done);
      } else if vm.running {
        OpcodeKeepsIdentity(binary.value, vm.todo[0], vm.ctl, input.world);
        SettleSerials(vm, ReadOpcode(binary.value, vm.todo[0], vm.ctl, input.world));
      } else {
        VisitOrder(binary.Some?, vm);
      }
    }
  }

  lemma AllSerials(vm: Vm)
    requires vm.running ==> vm.todo != []
    ensures Reached(vm) + Rest(vm) == vm.All()
    ensures Serials(vm.All()) == Serials(Reached(vm)) + Serials(Rest(vm))
  {
    assert Reached(vm) + Rest(vm) == vm.All();
    SerialsOfConcat(Reached(vm), Rest(vm));
  }

  lemma AtMostOneNew(lo: nat, hi: nat)
    requires lo <= hi <= lo + 1
    ensures Descending(lo, hi) == if lo == hi then [] else [lo]
  {
    if hi == lo + 1 {
      assert Descending(lo, lo) == [];
    }
  }

  lemma IdentitiesAfterStep(a: seq<nat>, x: seq<nat>, r: seq<nat>, kept: seq<nat>, lo: nat, hi: nat)
    requires Identities(a + (x + r), lo) && (kept == x || kept == []) && lo <= hi <= lo + 1
    ensures Identities(Descending(lo, hi) + a + kept + r, hi)
  {
    AtMostOneNew(lo, hi);
    var all := a + (x + r);
    var rest := a + kept + r;
    if kept == x {
      assert rest == all;
    } else {
      forall i | 0 <= i < |rest|
        ensures rest[i] == all[if i < |a| then i else i + |x|] && rest[i] < lo
      {
      }
      forall i, j | 0 <= i < j < |rest| ensures rest[i] != rest[j] {
        var i', j' := if i < |a| then i else i + |x|, if j < |a| then j else j + |x|;
        assert all[i'] != all[j'];
      }
    }
    assert Identities(rest, lo);
    assert Descending(lo, hi) + a + kept + r == Descending(lo, hi) + rest;
  }

  lemma PassStepKeepsOrdered(vm: Vm, v: Vm, e: Event)
    requires Ordered(vm) && PassStep(vm, v, e)
    ensures Ordered(v)
  {
    AllSerials(vm);
    AllSerials(v);
    IdentitiesAfterStep(Serials(Reached(vm)), VisitSerial(e), Serials(Rest(v)), KeptSerial(e),
                        vm.nextSerial, v.nextSerial);
    AtMostOneNew(vm.nextSerial, v.nextSerial);
    assert |Reached(v)| + |Rest(v)| == |v.All()|;
    assert |Reached(vm)| + |Rest(vm)| == |vm.All()|;
  }

  /** The counter is the list length and list nodes keep distinct identities. */
  lemma StepKeepsOrdered(binary: Option<Script>, vm: Vm, input: Input)
    requires Ordered(vm) && (vm.running ==> binary.Some?)
    ensures var r := Step(binary, vm, input);
            r.Next? ==> Ordered(r.vm) && (r.vm.running ==> binary.Some?)
  {
    var r := Step(binary, vm, input);
    if r.Next? {
      if r.event.PassBegun? {
        assert r.vm.All() == vm.All();
      } else {
        StepOrder(binary, vm, input);
        PassStepKeepsOrdered(vm, r.vm, r.event);
      }
    }
  }

  /** The events of a run, oldest first. */
  function Trace(binary: Option<Script>, vm: Vm, inputs: seq<Input>): (tr: seq<Event>)
    requires vm.ctl.Shaped() && Run(binary, vm, inputs).Next?
    ensures |tr| == |inputs|
    decreases |inputs|
  {
    if inputs == [] then []
    else Trace(binary, vm, inputs[..|inputs| - 1]) + [Run(binary, vm, inputs).event]
  }

  /** The engine after the first k inputs. */
  function After(binary: Option<Script>, vm: Vm, inputs: seq<Input>, k: nat): Result
    requires vm.ctl.Shaped() && k <= |inputs|
  {
    Run(binary, vm, inputs[..k])
  }

  lemma {:induction false} ReachableIsOrdered(binary: Option<Script>, vm: Vm, inputs: seq<Input>)
    requires Ordered(vm) && (vm.running ==> binary.Some?)
    ensures var r := Run(binary, vm, inputs);
            r.Next? ==> Ordered(r.vm) && (r.vm.running ==> binary.Some?)
    decreases |inputs|
  {
    if inputs == [] {
    } else {
      var before := inputs[..|inputs| - 1];
      ReachableIsOrdered(binary, vm, before);
      if Run(binary, vm, before).Next? {
        StepKeepsOrdered(binary, Run(binary, vm, before).vm, inputs[|inputs| - 1]);
      }
    }
  }

  /** threadCount is the length of the thread list in every reachable state. */
  lemma ThreadCountIsListLength(binary: Option<Script>, inputs: seq<Input>)
    ensures var r := Run(binary, INITIAL, inputs); r.Next? ==> r.vm.count == |r.vm.All()|
  {
    ReachableIsOrdered(binary, INITIAL, inputs);
  }

  /** The serials of the threads a trace visits, and of those it leaves in the list. */
  function Visited(tr: seq<Event>): seq<nat> {
    if tr == [] then [] else Visited(tr[..|tr| - 1]) + VisitSerial(tr[|tr| - 1])
  }

  function Kept(tr: seq<Event>): seq<nat> {
    if tr == [] then [] else Kept(tr[..|tr| - 1]) + KeptSerial(tr[|tr| - 1])
  }

  lemma DescendingSplits(lo: nat, mid: nat, hi: nat)
    requires lo <= mid <= hi
    ensures Descending(mid, hi) + Descending(lo, mid) == Descending(lo, hi)
    decreases hi - mid
  {
    if mid < hi {
      DescendingSplits(lo, mid, hi - 1);
    }
  }

  /**
    Within one pass the visits so far are, in list order, exactly the threads that have
    left the unvisited part; spawned threads stand in front of the visited ones.
   */
  ghost predicate PassSoFar(vm: Vm, v: Vm, tr: seq<Event>) {
    && Visited(tr) + Serials(Rest(v)) == Serials(Rest(vm))
    && vm.nextSerial <= v.nextSerial
    && Serials(Reached(v))
       == Descending(vm.nextSerial, v.nextSerial) + Serials(Reached(vm)) + Kept(tr)
    && v.frame == vm.frame
    && (v.running ==> v.todo != [])
  }

  lemma PassSoFarExtends(vm: Vm, m: Vm, v: Vm, tr: seq<Event>, e: Event)
    requires PassSoFar(vm, m, tr) && PassStep(m, v, e)
    ensures PassSoFar(vm, v, tr + [e])
  {
    hide Visited, Kept, Descending, VisitSerial, KeptSerial, Serials, Rest, Reached;
    DescendingSplits(vm.nextSerial, m.nextSerial, v.nextSerial);
    TraceAppend(tr, e);
    ListsExtend(Descending(m.nextSerial, v.nextSerial), Descending(vm.nextSerial, m.nextSerial),
                Serials(Reached(vm)), Kept(tr), KeptSerial(e));
    assert Visited(tr) + (VisitSerial(e) + Serials(Rest(v))) == Visited(tr) + VisitSerial(e) + Serials(Rest(v));
  }

  lemma TraceAppend(tr: seq<Event>, e: Event)
    ensures Visited(tr + [e]) == Visited(tr) + VisitSerial(e)
    ensures Kept(tr + [e]) == Kept(tr) + KeptSerial(e)
  {
    assert (tr + [e])[..|tr|] == tr;
  }

  lemma ListsExtend(a: seq<nat>, b: seq<nat>, c: seq<nat>, d: seq<nat>, e: seq<nat>)
    ensures a + (b + c + d) + e == (a + b) + c + (d + e)
  {
  }

  lemma {:induction false} PassPrefix(binary: Option<Script>, vm: Vm, inputs: seq<Input>)
    requires vm.ctl.Shaped() && (vm.running ==> vm.todo != [] && binary.Some?)
    requires Run(binary, vm, inputs).Next?
    requires forall e :: e in Trace(binary, vm, inputs) ==> !e.PassBegun?
    ensures var v := Run(binary, vm, inputs).vm;
            PassSoFar(vm, v, Trace(binary, vm, inputs)) && (v.running ==> binary.Some?)
    decreases |inputs|
  {
    if inputs == [] {
      assert Descending(vm.nextSerial, vm.nextSerial) == [];
    } else {
      var before := inputs[..|inputs| - 1];
      var r := Run(binary, vm, inputs);
      assert r.event in Trace(binary, vm, inputs);
      PassPrefix(binary, vm, before);
      var m := Run(binary, vm, before).vm;
      StepOrder(binary, m, inputs[|inputs| - 1]);
      PassSoFarExtends(vm, m, r.vm, Trace(binary, vm, before), r.event);
    }
  }

  /**
    A whole pass, from the moment it begins until its list is exhausted: every thread
    present at the start is visited exactly once, in list order; no other thread is
    visited; afterwards the list is the threads spawned meanwhile, newest first,
    followed by the visited threads that were not erased, in order.
   */
  lemma PassLaw(binary: Option<Script>, vm: Vm, inputs: seq<Input>)
    requires Ordered(vm) && !vm.running && vm.done == []
    requires Run(binary, vm, inputs).Next?
    requires forall e :: e in Trace(binary, vm, inputs) ==> !e.PassBegun?
    requires Run(binary, vm, inputs).vm.AtBoundary()
    ensures var v := Run(binary, vm, inputs).vm;
            var tr := Trace(binary, vm, inputs);
            && Visited(tr) == Serials(vm.todo)
            && vm.nextSerial <= v.nextSerial
            && Serials(v.done) == Descending(vm.nextSerial, v.nextSerial) + Kept(tr)
            && (forall i :: 0 <= i < |Visited(tr)| ==> Visited(tr)[i] < vm.nextSerial)
  {
    PassPrefix(binary, vm, inputs);
    hide Run, Trace, Visited, Kept, Descending, Ordered;
    assert vm.All() == vm.todo;
  }
}
