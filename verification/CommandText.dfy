/**
  The text form of a command, kind|name|target|arguments, and its reader.  Text records are
  what the resident queue and the command file hold.
 */
module CommandText {
  import opened Common
  import opened CommandForms
  import opened CommandSurface
  import E = Evidence

  // ---- numbers ----

  function DigitChar(d: int): (c: char)
    requires 0 <= d < 10
    ensures '0' <= c <= '9'
  {
    '0' + d as char
  }

  function Digits(n: nat): (s: string)
    ensures s != "" && forall i :: 0 <= i < |s| ==> '0' <= s[i] <= '9'
  {
    if n < 10 then [DigitChar(n)] else Digits(n / 10) + [DigitChar(n % 10)]
  }

  function Decimal(i: int): (s: string)
    ensures s != "" && forall k :: 0 <= k < |s| ==> s[k] == '-' || '0' <= s[k] <= '9'
  {
    if i < 0 then "-" + Digits(-i) else Digits(i)
  }

  function ParseDigits(s: string): Option<nat>
    decreases |s|
  {
    if s == "" then None
    else
      var c := s[|s| - 1];
      if !('0' <= c <= '9') then None
      else if |s| == 1 then Some((c - '0') as nat)
      else
        match ParseDigits(s[..|s| - 1])
        case None => None
        case Some(n) => Some(10 * n + (c - '0') as nat)
  }

  function Negative(n: nat): Option<int> {
    Some(0 - n)
  }

  function ParseInt(s: string): Option<int> {
    if s != "" && s[0] == '-' then
      match ParseDigits(s[1..])
      case None => None
      case Some(n) => Negative(n)
    else
      match ParseDigits(s)
      case None => None
      case Some(n) => Some(n)
  }

  lemma {:induction false} DigitsReadBack(n: nat)
    ensures ParseDigits(Digits(n)) == Some(n)
  {
    if n < 10 {
    } else {
      DigitsReadBack(n / 10);
      var s := Digits(n);
      assert s[..|s| - 1] == Digits(n / 10);
    }
  }

  lemma DecimalReadsBack(i: int)
    ensures ParseInt(Decimal(i)) == Some(i)
  {
    hide Digits, ParseDigits;
    if i < 0 {
      DigitsReadBack(-i);
      assert Decimal(i)[1..] == Digits(-i);
    } else {
      DigitsReadBack(i);
    }
  }

  // ---- arguments ----

  /** The arguments after the first, each with its comma. */
  function Tail(args: seq<int>): string {
    if args == [] then "" else "," + Decimal(args[0]) + Tail(args[1..])
  }

  function Join(args: seq<int>): string {
    if args == [] then "" else Decimal(args[0]) + Tail(args[1..])
  }

  method SerializeArguments(args: seq<int>) returns (text: string)
    ensures text == Join(args)
  {
    hide Decimal;
    text := "";
    for i := 0 to |args|
      invariant i == 0 ==> text == ""
      invariant i > 0 ==> text + Tail(args[i..]) == Join(args)
    {
      ghost var before, rest := text, args[i..];
      assert rest[0] == args[i] && rest[1..] == args[i + 1..];
      assert Tail(rest) == "," + Decimal(args[i]) + Tail(args[i + 1..]);
      if i > 0 {
        text := text + ",";
        assert before + Tail(rest) == text + Decimal(args[i]) + Tail(args[i + 1..]);
      }
      text := text + Decimal(args[i]);
    }
  }

  function ParseList(s: string): Option<seq<int>>
    decreases |s|
  {
    var comma := E.IndexOf(s, ',');
    match ParseInt(s[..comma])
    case None => None
    case Some(first) =>
      if comma == |s| then Some([first])
      else
        match ParseList(s[comma + 1..])
        case None => None
        case Some(rest) => Some([first] + rest)
  }

  function ParseArguments(s: string): Option<seq<int>> {
    if s == "" then Some([]) else ParseList(s)
  }

  lemma {:induction false} ListReadsBack(args: seq<int>)
    requires args != []
    ensures ParseList(Join(args)) == Some(args)
    decreases |args|
  {
    hide ParseList, Join, Decimal;
    if |args| == 1 {
      OneReadsBack(args[0]);
      assert args == [args[0]];
    } else {
      DecimalReadsBack(args[0]);
      ListReadsBack(args[1..]);
      JoinUnfolds(args);
      ListStep(Decimal(args[0]), args[0], Join(args[1..]), args[1..]);
      assert args == [args[0]] + args[1..];
    }
  }

  lemma JoinUnfolds(args: seq<int>)
    requires |args| > 1
    ensures Join(args) == Decimal(args[0]) + "," + Join(args[1..])
  {
    hide Decimal;
    TailIsJoin(args[1..]);
  }

  lemma ListStep(text: string, value: int, more: string, values: seq<int>)
    requires forall k :: 0 <= k < |text| ==> text[k] != ','
    requires ParseInt(text) == Some(value) && ParseList(more) == Some(values)
    ensures ParseList(text + "," + more) == Some([value] + values)
  {
    CommaAfter(text, more);
    hide E.IndexOf, ParseInt;
  }

  lemma OneReadsBack(i: int)
    ensures ParseList(Join([i])) == Some([i])
  {
    var s := Decimal(i);
    assert Join([i]) == s;
    DecimalReadsBack(i);
    hide Decimal, ParseInt;
    E.IndexIs(s, ',', |s|);
    assert s[..|s|] == s;
  }

  lemma TailIsJoin(args: seq<int>)
    requires args != []
    ensures Tail(args) == "," + Join(args)
  {
  }

  lemma CommaAfter(a: string, b: string)
    requires forall k :: 0 <= k < |a| ==> a[k] != ','
    ensures var s := a + "," + b; E.IndexOf(s, ',') == |a| && s[..|a|] == a && s[|a| + 1..] == b
  {
    E.IndexIs(a + "," + b, ',', |a|);
  }

  lemma {:induction false} TailHasNoBar(args: seq<int>)
    ensures '|' !in Tail(args)
  {
    if args == [] {
    } else {
      TailHasNoBar(args[1..]);
    }
  }

  lemma ArgumentsReadBack(args: seq<int>)
    ensures ParseArguments(Join(args)) == Some(args)
    ensures '|' !in Join(args)
  {
    if args != [] {
      ListReadsBack(args);
      TailHasNoBar(args[1..]);
    }
  }

  // ---- commands ----

  const UNIT_COMMAND := "unit-command"
  const GAME_ACTION := "game-action"

  function KindName(kind: Kind): string {
    match kind
    case UnitCommand => UNIT_COMMAND
    case GameAction => GAME_ACTION
    case UnknownKind => "unknown"
  }

  function ParseKindName(s: string): Option<Kind> {
    if s == UNIT_COMMAND then Some(UnitCommand) else if s == GAME_ACTION then Some(GameAction) else None
  }

  function Serialize(r: Request): string {
    KindName(r.kind) + "|" + r.name + "|" + Decimal(r.target) + "|" + Join(r.args)
  }

  method SerializeCommand(r: Request) returns (text: string)
    ensures text == Serialize(r)
  {
    var arguments := SerializeArguments(r.args);
    text := KindName(r.kind) + "|" + r.name + "|" + Decimal(r.target) + "|" + arguments;
  }

  lemma NumbersLook()
    ensures Decimal(7) == "7" && Decimal(12) == "12" && Decimal(-4) == "-4"
  {
    assert Digits(1) == "1";
    assert Digits(12) == Digits(1) + "2";
  }

  lemma ArgumentsLook()
    ensures Join([12, -4]) == "12,-4"
  {
    NumbersLook();
    hide Decimal;
    var rest := [12, -4][1..];
    assert rest == [-4] && rest[1..] == [];
    assert Tail(rest) == ",-4";
  }

  /** One record, spelled out. */
  lemma RecordLooks()
    ensures Serialize(Request(UnitCommand, "Move", 7, [12, -4])) == "unit-command|Move|7|12,-4"
  {
    NumbersLook();
    ArgumentsLook();
    hide Decimal, Join;
  }

  function Cut(s: string): Option<(string, string)> {
    var bar := E.IndexOf(s, '|');
    if bar == |s| then None else Some((s[..bar], s[bar + 1..]))
  }

  function ParseTargetAndArguments(kind: Kind, name: string, s: string): Option<Request> {
    match Cut(s)
    case None => None
    case Some((target, args)) =>
      match (ParseInt(target), ParseArguments(args))
      case (Some(t), Some(a)) => Some(Request(kind, name, t, a))
      case _ => None
  }

  function Parse(s: string): Option<Request> {
    match Cut(s)
    case None => None
    case Some((kindText, rest)) =>
      match (ParseKindName(kindText), Cut(rest))
      case (Some(kind), Some((name, more))) => ParseTargetAndArguments(kind, name, more)
      case _ => None
  }

  lemma CutAt(a: string, b: string)
    requires '|' !in a
    ensures Cut(a + "|" + b) == Some((a, b))
  {
    var s := a + "|" + b;
    E.IndexIs(s, '|', |a|);
    assert s[..|a|] == a && s[|a| + 1..] == b;
  }

  /** Every command of a known kind whose name holds no bar reads back. */
  lemma SerializeReadsBack(r: Request)
    requires !r.kind.UnknownKind? && '|' !in r.name
    ensures Parse(Serialize(r)) == Some(r)
  {
    hide Decimal, Join, ParseTargetAndArguments;
    var rest := Decimal(r.target) + "|" + Join(r.args);
    var named := r.name + "|" + rest;
    assert Serialize(r) == KindName(r.kind) + "|" + named;
    CutAt(KindName(r.kind), named);
    CutAt(r.name, rest);
    TargetReadsBack(r.kind, r.name, r.target, r.args);
    hide Cut;
  }

  lemma TargetReadsBack(kind: Kind, name: string, target: int, args: seq<int>)
    ensures ParseTargetAndArguments(kind, name, Decimal(target) + "|" + Join(args))
         == Some(Request(kind, name, target, args))
  {
    CutAt(Decimal(target), Join(args));
    DecimalReadsBack(target);
    ArgumentsReadBack(args);
    hide Cut, Decimal, Join, ParseInt, ParseArguments;
  }

  // ---- names ----

  predicate NoBar(names: seq<string>) {
    forall i :: 0 <= i < |names| ==> '|' !in names[i]
  }

  lemma OrderNamesHaveNoBar()
    ensures NoBar(OrderCommands()) && NoBar(StandingCommands())
  {
  }

  lemma AbilityNamesHaveNoBar()
    ensures NoBar(AbilityCommands())
  {
  }

  lemma TargetedNamesHaveNoBar()
    ensures NoBar(TargetedCommands())
  {
  }

  lemma UnitNamesHaveNoBar()
    ensures NoBar(UnitCommands())
  {
    hide OrderCommands, StandingCommands, AbilityCommands, TargetedCommands;
    OrderNamesHaveNoBar();
    AbilityNamesHaveNoBar();
    TargetedNamesHaveNoBar();
  }

  lemma SessionNamesHaveNoBar()
    ensures NoBar(SessionActions())
  {
  }

  lemma DrawingNamesHaveNoBar()
    ensures NoBar(DrawingActions())
  {
  }

  lemma OptionNamesHaveNoBar()
    ensures NoBar(OptionActions())
  {
  }

  lemma ActionNamesHaveNoBar()
    ensures NoBar(GameActions())
  {
    hide SessionActions, DrawingActions, OptionActions;
    SessionNamesHaveNoBar();
    DrawingNamesHaveNoBar();
    OptionNamesHaveNoBar();
  }
}
