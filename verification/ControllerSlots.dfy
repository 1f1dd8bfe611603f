/**
  The slot arrays of AIController: a slot holds 0 when free and a unit type plus one
  when taken.  The arrays are written by bounded loops; the laws below say that every
  reachable array is a bounded sequence of entries followed by free slots.
 */
module ControllerSlots {

  const NONE_TYPE: nat := 228
  const UNKNOWN_TYPE: nat := 233
  const ATTACK_SLOTS: nat := 64
  const DEFENSE_ROWS: nat := 4
  const DEFENSE_SLOTS: nat := 10

  /** Constructing a unit type from an out-of-range identifier yields Unknown. */
  function UnitTypeId(id: int): nat {
    if id < 0 || id > UNKNOWN_TYPE then UNKNOWN_TYPE else id
  }

  function FirstFree(s: seq<nat>): (u: nat)
    ensures u <= |s|
    ensures forall i :: 0 <= i < u ==> s[i] != 0
    ensures u < |s| ==> s[u] == 0
  {
    if s == [] || s[0] == 0 then 0 else 1 + FirstFree(s[1..])
  }

  /** The bounded sequence an array stands for. */
  function Entries(s: seq<nat>): seq<nat> {
    s[..FirstFree(s)]
  }

  /** Every taken slot lies before every free one. */
  ghost predicate Packed(s: seq<nat>) {
    forall i :: FirstFree(s) <= i < |s| ==> s[i] == 0
  }

  function Zeroes(n: nat): (s: seq<nat>)
    ensures |s| == n
  {
    seq(n, _ => 0)
  }

  /** The effect of one adding loop that starts at the first free slot. */
  function Filled(s: seq<nat>, count: nat, v: nat): (r: seq<nat>)
    ensures |r| == |s|
  {
    var u := FirstFree(s);
    seq(|s|, i requires 0 <= i < |s| => if u <= i < u + count then v else s[i])
  }

  function AttackAdded(slots: seq<nat>, count: int, unitType: int): (r: seq<nat>)
    ensures |r| == |slots|
  {
    if count <= 0 || count >= ATTACK_SLOTS || UnitTypeId(unitType) >= NONE_TYPE then slots
    else Filled(slots, count, UnitTypeId(unitType) + 1)
  }

  function DefenseAdded(slots: seq<nat>, count: int, unitType: int): (r: seq<nat>)
    ensures |r| == |slots|
  {
    if count < 0 || count > DEFENSE_SLOTS || UnitTypeId(unitType) >= NONE_TYPE then slots
    else Filled(slots, count, UnitTypeId(unitType) + 1)
  }

  function Copies(v: nat, n: nat): seq<nat> {
    seq(n, _ => v)
  }

  function Min(a: nat, b: nat): nat {
    if a <= b then a else b
  }

  lemma FirstFreeIs(s: seq<nat>, u: nat)
    requires u <= |s|
    requires forall i :: 0 <= i < u ==> s[i] != 0
    requires u < |s| ==> s[u] == 0
    ensures FirstFree(s) == u
  {
  }

  /** Filling a packed array appends as many copies as there is room for. */
  lemma FilledAppends(s: seq<nat>, count: nat, v: nat)
    requires Packed(s) && v != 0
    ensures Packed(Filled(s, count, v))
    ensures Entries(Filled(s, count, v))
         == Entries(s) + Copies(v, Min(count, |s| - |Entries(s)|))
  {
    var u := FirstFree(s);
    var r := Filled(s, count, v);
    var w := u + Min(count, |s| - u);
    FirstFreeIs(r, w);
    assert r[..w] == s[..u] + Copies(v, w - u);
  }

  /** An attack add appends when its arguments are in range and is a no-op otherwise. */
  lemma AttackAddRefines(s: seq<nat>, count: int, unitType: int)
    requires Packed(s) && |s| == ATTACK_SLOTS
    ensures Packed(AttackAdded(s, count, unitType))
    ensures Entries(AttackAdded(s, count, unitType)) ==
            if 1 <= count <= 63 && 0 <= unitType < NONE_TYPE
            then Entries(s) + Copies(unitType + 1, Min(count, 64 - |Entries(s)|))
            else Entries(s)
  {
    if 1 <= count <= 63 && 0 <= unitType < NONE_TYPE {
      FilledAppends(s, count, unitType + 1);
    }
  }

  lemma DefenseAddRefines(s: seq<nat>, count: int, unitType: int)
    requires Packed(s) && |s| == DEFENSE_SLOTS
    ensures Packed(DefenseAdded(s, count, unitType))
    ensures Entries(DefenseAdded(s, count, unitType)) ==
            if 0 <= count <= 10 && 0 <= unitType < NONE_TYPE
            then Entries(s) + Copies(unitType + 1, Min(count, 10 - |Entries(s)|))
            else Entries(s)
  {
    if 0 <= count <= 10 && 0 <= unitType < NONE_TYPE {
      FilledAppends(s, count, unitType + 1);
    }
  }

  lemma ZeroesAreEmpty(n: nat)
    ensures Packed(Zeroes(n)) && Entries(Zeroes(n)) == []
  {
    FirstFreeIs(Zeroes(n), 0);
  }

  function Row(a: array2<nat>, row: nat): (s: seq<nat>)
    requires row < a.Length0
    reads a
    ensures |s| == a.Length1
  {
    seq(a.Length1, j requires 0 <= j < a.Length1 reads a => a[row, j])
  }

  /** The mutable controller: the three slot tables and the fields the scripts test. */
  class AIController {
    const attackGroups: array<nat>
    const defenseBuild: array2<nat>
    const defenseUse: array2<nat>
    var ifDif: int
    var upgradesFinished: bool
    var waitForType: nat

    ghost predicate Valid()
      reads this
    {
      && attackGroups.Length == ATTACK_SLOTS
      && defenseBuild.Length0 == DEFENSE_ROWS && defenseBuild.Length1 == DEFENSE_SLOTS
      && defenseUse.Length0 == DEFENSE_ROWS && defenseUse.Length1 == DEFENSE_SLOTS
      && defenseBuild != defenseUse
      && 0 <= ifDif < 256
    }

    constructor ()
      ensures Valid() && fresh(attackGroups) && fresh(defenseBuild) && fresh(defenseUse)
      ensures attackGroups[..] == Zeroes(ATTACK_SLOTS)
      ensures forall r :: 0 <= r < DEFENSE_ROWS ==>
                Row(defenseBuild, r) == Zeroes(DEFENSE_SLOTS) && Row(defenseUse, r) == Zeroes(DEFENSE_SLOTS)
      ensures ifDif == 0 && !upgradesFinished && waitForType == 0
    {
      attackGroups := new nat[ATTACK_SLOTS](_ => 0);
      defenseBuild := new nat[DEFENSE_ROWS, DEFENSE_SLOTS]((_, _) => 0);
      defenseUse := new nat[DEFENSE_ROWS, DEFENSE_SLOTS]((_, _) => 0);
      ifDif, upgradesFinished, waitForType := 0, false, 0;
    }

    method AttackAdd(count: int, unitType: int)
      requires Valid()
      modifies attackGroups
      ensures attackGroups[..] == AttackAdded(old(attackGroups[..]), count, unitType)
    {
      var id := UnitTypeId(unitType);
      if count <= 0 || count >= ATTACK_SLOTS || id >= NONE_TYPE {
        return;
      }
      var u := 0;
      while u < attackGroups.Length && attackGroups[u] != 0
        invariant 0 <= u <= attackGroups.Length
        invariant forall i :: 0 <= i < u ==> attackGroups[i] != 0
      {
        u := u + 1;
      }
      FirstFreeIs(attackGroups[..], u);
      var c := 0;
      while c < count && u + c < attackGroups.Length
        invariant 0 <= c <= count && u + c <= attackGroups.Length
        invariant forall i :: 0 <= i < attackGroups.Length ==>
                    attackGroups[i] == if u <= i < u + c then id + 1 else old(attackGroups[i])
      {
        attackGroups[u + c] := id + 1;
        c := c + 1;
      }
    }

    method AttackClear()
      requires Valid()
      modifies attackGroups
      ensures attackGroups[..] == Zeroes(ATTACK_SLOTS)
    {
      for i := 0 to attackGroups.Length
        invariant forall k :: 0 <= k < i ==> attackGroups[k] == 0
      {
        attackGroups[i] := 0;
      }
    }

    method DefenseBuild(row: int, count: int, unitType: int)
      requires Valid()
      modifies defenseBuild
      ensures forall r :: 0 <= r < DEFENSE_ROWS ==>
                Row(defenseBuild, r) ==
                if r == row then DefenseAdded(old(Row(defenseBuild, r)), count, unitType)
                else old(Row(defenseBuild, r))
    {
      AddToRow(defenseBuild, row, count, unitType);
    }

    method DefenseUse(row: int, count: int, unitType: int)
      requires Valid()
      modifies defenseUse
      ensures forall r :: 0 <= r < DEFENSE_ROWS ==>
                Row(defenseUse, r) ==
                if r == row then DefenseAdded(old(Row(defenseUse, r)), count, unitType)
                else old(Row(defenseUse, r))
    {
      AddToRow(defenseUse, row, count, unitType);
    }

    method DefenseClear(row: int)
      requires Valid()
      modifies defenseBuild, defenseUse
      ensures forall r :: 0 <= r < DEFENSE_ROWS ==>
                && Row(defenseBuild, r) == (if r == row then Zeroes(DEFENSE_SLOTS) else old(Row(defenseBuild, r)))
                && Row(defenseUse, r) == (if r == row then Zeroes(DEFENSE_SLOTS) else old(Row(defenseUse, r)))
    {
      if row < 0 || row > 3 {
        return;
      }
      for j := 0 to DEFENSE_SLOTS
        invariant forall r, k :: 0 <= r < DEFENSE_ROWS && 0 <= k < DEFENSE_SLOTS ==>
                    && defenseBuild[r, k] == (if r == row && k < j then 0 else old(defenseBuild[r, k]))
                    && defenseUse[r, k] == (if r == row && k < j then 0 else old(defenseUse[r, k]))
      {
        defenseBuild[row, j] := 0;
        defenseUse[row, j] := 0;
      }
    }
  }

  /** The body shared by DefenseBuild and DefenseUse, which differ only in their table. */
  method AddToRow(table: array2<nat>, row: int, count: int, unitType: int)
    requires table.Length0 == DEFENSE_ROWS && table.Length1 == DEFENSE_SLOTS
    modifies table
    ensures forall r :: 0 <= r < DEFENSE_ROWS ==>
              Row(table, r) ==
              if r == row then DefenseAdded(old(Row(table, r)), count, unitType) else old(Row(table, r))
  {
    var id := UnitTypeId(unitType);
    if row < 0 || row > 3 || count < 0 || count > DEFENSE_SLOTS || id >= NONE_TYPE {
      return;
    }
    var u := 0;
    while u < DEFENSE_SLOTS && table[row, u] != 0
      invariant 0 <= u <= DEFENSE_SLOTS
      invariant forall i :: 0 <= i < u ==> table[row, i] != 0
    {
      u := u + 1;
    }
    FirstFreeIs(Row(table, row), u);
    var c := 0;
    while c < count && u + c < DEFENSE_SLOTS
      invariant 0 <= c <= count && u + c <= DEFENSE_SLOTS
      invariant forall r, k :: 0 <= r < DEFENSE_ROWS && 0 <= k < DEFENSE_SLOTS ==>
                  table[r, k] == if r == row && u <= k < u + c then id + 1 else old(table[r, k])
    {
      table[row, u + c] := id + 1;
      c := c + 1;
    }
  }
}
