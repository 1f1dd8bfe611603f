/**
  Exactly when a thread that is not running is next touched.  A dormant thread with n
  sleep ticks left is skipped n more times and then, in the pass its due frame names,
  either erased (when it was marked) or started again, with nothing else changed.
 */
module AiScriptSleep {
  import opened Common
  import opened AiScriptCode
  import opened AiScriptMachine
  import opened AiScriptSchedule

  /** In the list, but not the thread whose opcodes are being executed. */
  ghost predicate Dormant(vm: Vm, t: Thread) {
    t in vm.done || t in Rest(vm)
  }

  /** The pass in which a dormant thread is next erased or started. */
  ghost function Due(vm: Vm, t: Thread): nat {
    vm.frame + t.sleep + (if t in vm.done then 1 else 0)
  }

  ghost predicate Absent(vm: Vm, serial: nat) {
    && serial < vm.nextSerial
    && forall i :: 0 <= i < |vm.All()| ==> Serials(vm.All())[i] != serial
  }

  predicate Touches(e: Event, serial: nat) {
    (e.Erased? || e.Started? || e.Executed?) && e.serial == serial
  }

  /** u is t some skips later; only a kill mark may have been added. */
  ghost predicate SameSleeper(t: Thread, u: Thread) {
    u == t.(sleep := u.sleep, wantKilled := u.wantKilled) && (t.wantKilled ==> u.wantKilled)
  }

  lemma SerialsDiffer(vm: Vm, i: nat, j: nat)
    requires Ordered(vm) && i < |vm.All()| && j < |vm.All()| && i != j
    ensures vm.All()[i].serial != vm.All()[j].serial
  {
    assert Serials(vm.All())[i] != Serials(vm.All())[j];
  }

  /** A dormant thread is not the head of the unvisited part while that head runs. */
  lemma DormantIsNotRunning(vm: Vm, t: Thread)
    requires Ordered(vm) && Dormant(vm, t) && vm.running
    ensures vm.todo[0].serial != t.serial
  {
    if t in vm.done {
      var i :| 0 <= i < |vm.done| && vm.done[i] == t;
      SerialsDiffer(vm, i, |vm.done|);
    } else {
      var i :| 0 <= i < |vm.todo[1..]| && vm.todo[1..][i] == t;
      SerialsDiffer(vm, |vm.done| + 1 + i, |vm.done|);
    }
  }

  /** The two halves of the list never hold the same thread. */
  lemma HalvesAreDisjoint(vm: Vm, t: Thread)
    requires Ordered(vm) && t in vm.done
    ensures forall i :: 0 <= i < |vm.todo| ==> vm.todo[i].serial != t.serial
    ensures t !in Rest(vm)
  {
    var i :| 0 <= i < |vm.done| && vm.done[i] == t;
    forall k | 0 <= k < |vm.todo| ensures vm.todo[k].serial != t.serial {
      SerialsDiffer(vm, i, |vm.done| + k);
    }
  }

  function Marked(t: Thread): Thread {
    if t.killable then Kill(t) else t
  }

  lemma MarkedMember(ts: seq<Thread>, t: Thread)
    requires t in ts
    ensures Marked(t) in MarkKillable(ts)
  {
    var i :| 0 <= i < |ts| && ts[i] == t;
    assert MarkKillable(ts)[i] == Marked(t);
  }

  function Disturbed(o: Outcome, t: Thread): Thread
    requires o.Ran?
  {
    if o.killAll then Marked(t) else t
  }

  lemma AppliedOthers(vm: Vm, o: Outcome, t: Thread)
    requires vm.todo != [] && o.Ran?
    ensures var a := Applied(vm, o);
            && (t in vm.done ==> Disturbed(o, t) in a.done)
            && (t in vm.todo[1..] ==> Disturbed(o, t) in a.todo[1..])
  {
    var v1 := vm.(todo := [o.thread] + vm.todo[1..], ctl := o.ctl);
    var v2 := if o.spawn.Some? then Spawn(v1, o.spawn.value) else v1;
    assert v2.todo[1..] == vm.todo[1..];
    if o.killAll {
      assert MarkKillable(v2.todo)[1..] == MarkKillable(vm.todo[1..]);
      if t in vm.done {
        MarkedMember(v2.done, t);
      }
      if t in vm.todo[1..] {
        MarkedMember(vm.todo[1..], t);
      }
    }
  }

  /** What settling an opcode does to every thread but the one that ran. */
  lemma SettleOthers(vm: Vm, o: Outcome, t: Thread)
    requires vm.running && vm.todo != [] && o.Ran?
    ensures var v := Settle(vm, o);
            && (t in vm.done ==> Disturbed(o, t) in v.done)
            && (t in vm.todo[1..] ==> Disturbed(o, t) in Rest(v))
            && v.frame == vm.frame
  {
    AppliedOthers(vm, o, t);
  }

  ghost predicate SleptOn(vm: Vm, t: Thread, v: Vm, u: Thread) {
    Dormant(v, u) && SameSleeper(t, u) && Due(v, u) == Due(vm, t)
  }

  lemma SleepThroughTurn(s: Script, vm: Vm, w: World, t: Thread) returns (u: Thread)
    requires Ordered(vm) && vm.running && Dormant(vm, t) && Turn(s, vm, w).Next?
    ensures var r := Turn(s, vm, w); SleptOn(vm, t, r.vm, u) && !Touches(r.event, t.serial)
  {
    DormantIsNotRunning(vm, t);
    var o := ReadOpcode(s, vm.todo[0], vm.ctl, w);
    OpcodeKeepsIdentity(s, vm.todo[0], vm.ctl, w);
    u := Disturbed(o, t);
    SettleOthers(vm, o, t);
    StepKeepsOrdered(Some(s), vm, Tick(w));
    var v := Settle(vm, o);
    if u in v.done {
      HalvesAreDisjoint(v, u);
    }
  }

  lemma SleepThroughVisit(loaded: bool, vm: Vm, t: Thread) returns (u: Thread)
    requires Ordered(vm) && !vm.running && vm.todo != [] && Dormant(vm, t)
    ensures var r := Visit(loaded, vm);
            if Touches(r.event, t.serial) then
              && vm.frame == Due(vm, t) && t == vm.todo[0] && t.sleep == 0
              && r.event == (if t.wantKilled then Erased(t.serial) else Started(t.serial))
            else SleptOn(vm, t, r.vm, u)
  {
    var r := Visit(loaded, vm);
    var h := vm.todo[0];
    u := t;
    if t in vm.done {
      HalvesAreDisjoint(vm, t);
    } else {
      var i :| 0 <= i < |vm.todo| && vm.todo[i] == t;
      if i == 0 {
        if t.sleep > 0 {
          u := t.(sleep := t.sleep - 1);
          assert r.vm.done[|vm.done|] == u;
        }
      } else {
        SerialsDiffer(vm, |vm.done|, |vm.done| + i);
        assert vm.todo[1..][i - 1] == t;
        assert t != h;
      }
    }
  }

  /** One step of the engine, seen from a dormant thread. */
  lemma SleepStep(binary: Option<Script>, vm: Vm, input: Input, t: Thread) returns (u: Thread)
    requires Ordered(vm) && (vm.running ==> binary.Some?) && Dormant(vm, t)
    requires Step(binary, vm, input).Next?
    ensures var r := Step(binary, vm, input);
            if Touches(r.event, t.serial) then
              && r.vm.frame == Due(vm, t)
              && r.event == (if t.wantKilled then Erased(t.serial) else Started(t.serial))
              && (!t.wantKilled && binary.Some? ==>
                    r.vm.running && r.vm.todo != [] && r.vm.todo[0] == t.(sleep := 0, bytesRead := 0))
            else SleptOn(vm, t, r.vm, u)
  {
    u := t;
    if input.Tick? {
      if vm.running {
        u := SleepThroughTurn(binary.value, vm, input.world, t);
      } else if vm.todo != [] {
        u := SleepThroughVisit(binary.Some?, vm, t);
      } else {
        HalvesAreDisjoint(vm, t);
      }
    }
  }

  ghost predicate Undisturbed(tr: seq<Event>, serial: nat) {
    forall i :: 0 <= i < |tr| ==> !Touches(tr[i], serial)
  }

  /** While nothing touches a dormant thread it stays as it is and its due pass is not over. */
  lemma {:induction false} SleepLaw(binary: Option<Script>, vm: Vm, inputs: seq<Input>, t: Thread)
    returns (u: Thread)
    requires Ordered(vm) && (vm.running ==> binary.Some?) && Dormant(vm, t)
    requires Run(binary, vm, inputs).Next?
    requires Undisturbed(Trace(binary, vm, inputs), t.serial)
    ensures var v := Run(binary, vm, inputs).vm; SleptOn(vm, t, v, u) && v.frame <= Due(vm, t)
    decreases |inputs|
  {
    u := t;
    if inputs == [] {
    } else {
      var before := inputs[..|inputs| - 1];
      var tr := Trace(binary, vm, inputs);
      assert tr[|tr| - 1] == Run(binary, vm, inputs).event;
      assert tr[..|tr| - 1] == Trace(binary, vm, before);
      var m := SleepLaw(binary, vm, before, t);
      ReachableIsOrdered(binary, vm, before);
      u := SleepStep(binary, Run(binary, vm, before).vm, inputs[|inputs| - 1], m);
    }
  }

  /**
    The first touch of a dormant thread comes in its due pass: it erases the thread if a
    kill mark is on it by then and otherwise starts it where it stopped.
   */
  lemma WakeLaw(binary: Option<Script>, vm: Vm, inputs: seq<Input>, input: Input, t: Thread)
    returns (u: Thread)
    requires Ordered(vm) && (vm.running ==> binary.Some?) && Dormant(vm, t)
    requires Run(binary, vm, inputs).Next? && Undisturbed(Trace(binary, vm, inputs), t.serial)
    requires var r := Step(binary, Run(binary, vm, inputs).vm, input);
             r.Next? && Touches(r.event, t.serial)
    ensures var r := Step(binary, Run(binary, vm, inputs).vm, input);
            && r.vm.frame == Due(vm, t)
            && SameSleeper(t, u)
            && r.event == (if u.wantKilled then Erased(t.serial) else Started(t.serial))
            && (!u.wantKilled && binary.Some? ==>
                  r.vm.running && r.vm.todo != [] && r.vm.todo[0] == u.(sleep := 0, bytesRead := 0))
  {
    u := SleepLaw(binary, vm, inputs, t);
    ReachableIsOrdered(binary, vm, inputs);
    var x := SleepStep(binary, Run(binary, vm, inputs).vm, input, u);
  }

  lemma AbsentFromLists(vm: Vm, serial: nat)
    requires Absent(vm, serial)
    ensures forall i :: 0 <= i < |vm.done| ==> vm.done[i].serial != serial
    ensures forall i :: 0 <= i < |vm.todo| ==> vm.todo[i].serial != serial
  {
    forall i | 0 <= i < |vm.done| ensures vm.done[i].serial != serial {
      assert Serials(vm.All())[i] == vm.done[i].serial;
    }
    forall i | 0 <= i < |vm.todo| ensures vm.todo[i].serial != serial {
      assert Serials(vm.All())[|vm.done| + i] == vm.todo[i].serial;
    }
  }

  /** Identities are never reused: an erased thread never comes back. */
  lemma AbsentStays(binary: Option<Script>, vm: Vm, input: Input, serial: nat)
    requires Ordered(vm) && (vm.running ==> binary.Some?) && Absent(vm, serial)
    ensures var r := Step(binary, vm, input);
            r.Next? ==> Absent(r.vm, serial) && !Touches(r.event, serial)
  {
    var r := Step(binary, vm, input);
    if r.Next? {
      AbsentFromLists(vm, serial);
      if r.event.PassBegun? {
        assert r.vm.All() == vm.All();
      } else {
        StepOrder(binary, vm, input);
        AllSerials(vm);
        AllSerials(r.vm);
        AtMostOneNew(vm.nextSerial, r.vm.nextSerial);
        AbsentAfterPassStep(vm, r.vm, r.event, serial);
      }
    }
  }

  lemma AbsentAfterPassStep(vm: Vm, v: Vm, e: Event, serial: nat)
    requires Absent(vm, serial) && PassStep(vm, v, e)
    requires Serials(vm.All()) == Serials(Reached(vm)) + Serials(Rest(vm))
    requires Serials(v.All()) == Serials(Reached(v)) + Serials(Rest(v))
    ensures Absent(v, serial)
  {
    AtMostOneNew(vm.nextSerial, v.nextSerial);
    var before, newer := Serials(vm.All()), Descending(vm.nextSerial, v.nextSerial);
    assert serial !in before;
    assert before == Serials(Reached(vm)) + (VisitSerial(e) + Serials(Rest(v)));
    assert Serials(v.All()) == newer + Serials(Reached(vm)) + KeptSerial(e) + Serials(Rest(v));
    assert serial !in Serials(v.All());
  }

  /** Either still asleep and marked, or erased no earlier than its due pass. */
  ghost predicate Doomed(v: Vm, t: Thread, due: nat) {
    || (Absent(v, t.serial) && v.frame >= due)
    || exists u :: Dormant(v, u) && SameSleeper(t, u) && Due(v, u) == due
  }

  lemma ErasedIsAbsent(vm: Vm, t: Thread)
    requires Ordered(vm) && !vm.running && vm.todo != [] && vm.todo[0] == t
    ensures Absent(vm.(todo := vm.todo[1..], count := vm.count - 1), t.serial)
  {
    var v := vm.(todo := vm.todo[1..], count := vm.count - 1);
    var n := |vm.done|;
    assert Serials(vm.All())[n] == t.serial;
    forall i | 0 <= i < |v.All()| ensures Serials(v.All())[i] != t.serial {
      SerialsDiffer(vm, if i < n then i else i + 1, n);
    }
  }

  lemma DoomedStep(binary: Option<Script>, vm: Vm, input: Input, t: Thread, due: nat)
    requires Ordered(vm) && (vm.running ==> binary.Some?) && t.wantKilled && Doomed(vm, t, due)
    ensures var r := Step(binary, vm, input);
            r.Next? ==>
              && Doomed(r.vm, t, due)
              && (Touches(r.event, t.serial) ==> r.event == Erased(t.serial) && r.vm.frame == due)
  {
    var r := Step(binary, vm, input);
    if r.Next? {
      if Absent(vm, t.serial) && vm.frame >= due {
        AbsentStays(binary, vm, input, t.serial);
      } else {
        var u :| Dormant(vm, u) && SameSleeper(t, u) && Due(vm, u) == due;
        var x := SleepStep(binary, vm, input, u);
        if Touches(r.event, t.serial) {
          ErasedIsAbsent(vm, vm.todo[0]);
        } else {
          assert SameSleeper(t, x);
        }
      }
    }
  }

  /**
    The kill law.  A marked thread never executes again; it is erased in its due pass and
    in no other, so it is still listed before that pass and gone after it.
   */
  lemma {:induction false} KillLaw(binary: Option<Script>, vm: Vm, inputs: seq<Input>, t: Thread)
    requires Ordered(vm) && (vm.running ==> binary.Some?) && Dormant(vm, t) && t.wantKilled
    requires Run(binary, vm, inputs).Next?
    ensures var v := Run(binary, vm, inputs).vm;
            var tr := Trace(binary, vm, inputs);
            && Doomed(v, t, Due(vm, t))
            && (forall i :: 0 <= i < |tr| && Touches(tr[i], t.serial) ==>
                  tr[i] == Erased(t.serial) && After(binary, vm, inputs, i + 1).Next?
                  && After(binary, vm, inputs, i + 1).vm.frame == Due(vm, t))
            && (v.frame < Due(vm, t) ==> exists u :: Dormant(v, u) && SameSleeper(t, u))
            && (v.frame > Due(vm, t) ==> Absent(v, t.serial))
    decreases |inputs|
  {
    var v := Run(binary, vm, inputs).vm;
    var due := Due(vm, t);
    if inputs == [] {
      assert Dormant(v, t) && SameSleeper(t, t) && Due(v, t) == due;
    } else {
      var before := inputs[..|inputs| - 1];
      var tr := Trace(binary, vm, inputs);
      KillLaw(binary, vm, before, t);
      ReachableIsOrdered(binary, vm, before);
      DoomedStep(binary, Run(binary, vm, before).vm, inputs[|inputs| - 1], t, due);
      forall i | 0 <= i < |tr| && Touches(tr[i], t.serial)
        ensures tr[i] == Erased(t.serial) && After(binary, vm, inputs, i + 1).Next?
                && After(binary, vm, inputs, i + 1).vm.frame == due
      {
        if i < |before| {
          assert tr[i] == Trace(binary, vm, before)[i];
          assert inputs[..i + 1] == before[..i + 1];
          assert After(binary, vm, before, i + 1).vm.frame == due;
        } else {
          assert inputs[..i + 1] == inputs;
        }
      }
    }
  }

  /** At a pass boundary the due pass of a thread with n sleep ticks is the (n+1)-th next one. */
  lemma DueAtBoundary(vm: Vm, t: Thread)
    requires vm.AtBoundary() && Dormant(vm, t)
    ensures Due(vm, t) == vm.frame + t.sleep + 1
  {
  }
}
