/**
  Heartbeat progression.  The last accepted heartbeat of the resident adapter is kept in a
  file beside the ready file; a ready file that is newer than the kept time must bring a
  larger heartbeat.
 */
module Heartbeat {
  import opened Common

  /** What the state file holds.  Reading a damaged file fails, but the values read before
      the damage are used all the same. */
  datatype Store =
    | NoStore
    | Damaged(heartbeat: nat, readyTime: int)
    | Stored(processId: int, heartbeat: nat, readyTime: int)

  /** The adapter as its own validation reports it. */
  datatype Adapter = Adapter(present: bool, valid: bool, processId: int, heartbeat: nat)

  datatype Check = Check(
    adapter: Adapter,
    readyTime: Option<int>,   // modification time of the ready file, when it can be read
    storeOpens: bool)         // whether the state file can be written

  const MINIMUM_HEARTBEAT: nat := 2

  /** A valid adapter's heartbeat and process id have passed the adapter's own checks. */
  predicate GoodAdapter(a: Adapter) {
    a.present && a.valid ==> a.heartbeat >= MINIMUM_HEARTBEAT && a.processId > 0
  }

  predicate GoodStore(s: Store) {
    s.Stored? ==> s.processId > 0 && s.heartbeat > 0
  }

  function HeartbeatIn(s: Store): nat {
    if s.NoStore? then 0 else s.heartbeat
  }

  function TimeIn(s: Store): int {
    if s.NoStore? then 0 else s.readyTime
  }

  predicate Considered(c: Check) {
    c.adapter.present && c.adapter.valid && c.readyTime.Some?
  }

  predicate Rejected(s: Store, c: Check) {
    && Considered(c)
    && s.Stored? && s.processId == c.adapter.processId
    && c.readyTime.value > s.readyTime && c.adapter.heartbeat <= s.heartbeat
  }

  predicate Writes(s: Store, c: Check) {
    && Considered(c) && !Rejected(s, c) && c.storeOpens
    && (c.adapter.heartbeat > HeartbeatIn(s) || c.readyTime.value > TimeIn(s))
  }

  function After(s: Store, c: Check): Store {
    if Writes(s, c) then Stored(c.adapter.processId, c.adapter.heartbeat, c.readyTime.value) else s
  }

  class StateFile {
    var store: Store

    constructor ()
      ensures store == NoStore
    {
      store := NoStore;
    }

    /** validateResidentHeartbeatProgression. */
    method Validate(c: Check) returns (accepted: bool)
      modifies this
      ensures accepted <==> !Rejected(old(store), c)
      ensures store == After(old(store), c)
    {
      if !c.adapter.present || !c.adapter.valid {
        return true;
      }
      if c.readyTime.None? {
        return true;
      }
      var readOk := store.Stored?;
      var previousHeartbeat := if store.NoStore? then 0 else store.heartbeat;
      var previousTime := if store.NoStore? then 0 else store.readyTime;
      if readOk && store.processId == c.adapter.processId
         && c.readyTime.value > previousTime && c.adapter.heartbeat <= previousHeartbeat {
        return false;
      }
      if c.adapter.heartbeat > previousHeartbeat || c.readyTime.value > previousTime {
        if c.storeOpens {
          store := Stored(c.adapter.processId, c.adapter.heartbeat, c.readyTime.value);
        }
      }
      return true;
    }
  }

  // ---- one process ----

  /** The store is empty or belongs to the process. */
  predicate For(s: Store, processId: int) {
    s.NoStore? || (s.Stored? && s.processId == processId)
  }

  ghost predicate AllFor(checks: seq<Check>, processId: int) {
    forall i :: 0 <= i < |checks| ==> GoodAdapter(checks[i].adapter) && checks[i].adapter.processId == processId
  }

  /** A heartbeat that brings no progress is written exactly when the store is damaged or
      another process's and the ready file is newer than the store. */
  lemma WriteWithoutProgress(s: Store, c: Check)
    requires GoodAdapter(c.adapter) && c.adapter.heartbeat <= HeartbeatIn(s)
    ensures Writes(s, c) <==>
              Considered(c) && c.storeOpens && !For(s, c.adapter.processId) && c.readyTime.value > TimeIn(s)
    ensures Writes(s, c) ==> HeartbeatIn(After(s, c)) <= HeartbeatIn(s) && TimeIn(After(s, c)) > TimeIn(s)
  {
  }

  /** A store of the adapter's own process, or none yet, follows the adapter's progress and nothing else. */
  lemma OwnStoreFollowsProgress(s: Store, c: Check)
    requires GoodAdapter(c.adapter) && For(s, c.adapter.processId)
    ensures After(s, c)
         == if c.adapter.present && c.adapter.valid && c.readyTime.Some? && c.storeOpens
               && (s.NoStore? || c.adapter.heartbeat > s.heartbeat)
            then Stored(c.adapter.processId, c.adapter.heartbeat, c.readyTime.value)
            else s
  {
  }

  lemma OwnWriteAscends(s: Store, c: Check)
    requires GoodAdapter(c.adapter) && For(s, c.adapter.processId) && Writes(s, c)
    ensures c.adapter.heartbeat > HeartbeatIn(s)
  {
    if c.adapter.heartbeat <= HeartbeatIn(s) {
      WriteWithoutProgress(s, c);
    }
  }

  /** Another process's store, or a damaged one, can lose a larger heartbeat. */
  lemma ProgressIsPerProcess()
    ensures exists s: Store, c: Check ::
              GoodStore(s) && s.Stored? && GoodAdapter(c.adapter) && Writes(s, c)
              && HeartbeatIn(After(s, c)) < HeartbeatIn(s)
  {
    var s, c := Stored(7, 9, 100), Check(Adapter(true, true, 8, 2), Some(101), true);
    assert Writes(s, c);
  }

  // ---- runs ----

  function Run(s: Store, checks: seq<Check>): Store {
    if checks == [] then s else After(Run(s, checks[..|checks| - 1]), checks[|checks| - 1])
  }

  /** The heartbeats written during a run, in order. */
  function Written(s: Store, checks: seq<Check>): seq<nat> {
    if checks == [] then []
    else
      var n := |checks| - 1;
      Written(s, checks[..n]) + if Writes(Run(s, checks[..n]), checks[n]) then [checks[n].adapter.heartbeat] else []
  }

  lemma WrittenIsStored(s: Store, c: Check)
    requires Writes(s, c)
    ensures HeartbeatIn(After(s, c)) == c.adapter.heartbeat
  {
    hide Writes;
  }

  /** Over any run of checks of one process every write raises the stored heartbeat, and
      the store holds the heartbeat written last. */
  lemma {:induction false} WritesAscend(s: Store, checks: seq<Check>, processId: int)
    requires For(s, processId) && AllFor(checks, processId)
    ensures For(Run(s, checks), processId)
    ensures var w := Written(s, checks);
            && (forall i :: 0 <= i < |w| ==> w[i] > HeartbeatIn(s))
            && (forall i, j :: 0 <= i < j < |w| ==> w[i] < w[j])
            && HeartbeatIn(Run(s, checks)) == if w == [] then HeartbeatIn(s) else w[|w| - 1]
    decreases |checks|
  {
    hide Writes, GoodAdapter, HeartbeatIn;
    if checks == [] {
    } else {
      var n := |checks| - 1;
      WritesAscend(s, checks[..n], processId);
      var before := Run(s, checks[..n]);
      if Writes(before, checks[n]) {
        assert GoodAdapter(checks[n].adapter);
        OwnWriteAscends(before, checks[n]);
        assert HeartbeatIn(After(before, checks[n])) == checks[n].adapter.heartbeat by {
          WrittenIsStored(before, checks[n]);
        }
      }
    }
  }

  /** A rejected check changes nothing; a newer ready file is accepted only with a heartbeat
      above every heartbeat stored so far. */
  lemma NewerFileNeedsProgress(s: Store, checks: seq<Check>, c: Check, processId: int)
    requires For(s, processId) && AllFor(checks + [c], processId) && Considered(c)
    requires var before := Run(s, checks); before.Stored? && c.readyTime.value > before.readyTime
    ensures var before := Run(s, checks);
            && (Rejected(before, c) ==> After(before, c) == before)
            && (!Rejected(before, c) <==> c.adapter.heartbeat > before.heartbeat)
            && (!Rejected(before, c) ==>
                  c.adapter.heartbeat > HeartbeatIn(s)
                  && forall i :: 0 <= i < |Written(s, checks)| ==> c.adapter.heartbeat > Written(s, checks)[i])
  {
    assert (checks + [c])[..|checks|] == checks;
    assert forall i :: 0 <= i < |checks| ==> checks[i] == (checks + [c])[i];
    assert (checks + [c])[|checks|] == c;
    WritesAscend(s, checks, processId);
  }
}
