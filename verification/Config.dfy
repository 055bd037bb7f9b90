/** Match configuration and its validation (config.go, config_validate.go). */
module Config {

  const CONFIG_SCHEMA_VERSION := 1
  const MIN_PLAYERS_FLOOR := 2
  const MAX_PLAYERS_CEILING := 12
  const STARTING_MONEY_MAX := 1_000_000
  const MIN_BOARD_SPACES := 2
  const MAX_BOARD_SPACES := 64
  const MAX_SPACE_ID_LEN := 32
  const MAX_SPACE_NAME := 64
  const MAX_GROUP_LEN := 32
  const MAX_SPACE_PRICE := 1_000_000
  const MAX_SPACE_RENT := 100_000
  const MAX_TAX_AMOUNT := 1_000_000
  const MAX_PASSING_GO_BONUS := 1_000_000
  const MAX_DOUBLES_STREAK_CEILING := 16

  /** `UnknownKind` and `UnknownVictory` stand for every other string on the wire. */
  datatype Kind = Go | Property | Tax | Neutral | UnknownKind

  datatype VictoryType = LastStanding | TargetWealth | RoundLimit | UnknownVictory

  datatype BoardSpace = BoardSpace(id: string, kind: Kind, name: string, group: string,
                                   price: int, rent: int, amount: int)

  datatype Victory = Victory(kind: VictoryType, targetWealth: int, roundLimit: int)

  datatype PropertyRules = PropertyRules(passingGoBonus: int, doublesExtraRoll: bool, maxDoublesStreak: int)

  datatype Gambling = Gambling(enabled: bool, poker: bool, blackjack: bool, casino: bool)

  datatype RandomEvents = RandomEvents(enabled: bool, intervalTicks: int)

  datatype GameConfig = GameConfig(version: int, minPlayers: int, maxPlayers: int, startingMoney: int,
                                   gambling: Gambling, randomEvents: RandomEvents, victory: Victory,
                                   board: seq<BoardSpace>, rules: PropertyRules)

  datatype Field =
    | Version | PlayersMin | PlayersMax | StartingMoney | IntervalTicks | VictoryKind | TargetWealthField
    | RoundLimitField | Spaces | FirstKind | IdOf(i: nat) | SpaceName(i: nat) | SpaceGroup(i: nat)
    | SpacePrice(i: nat) | SpaceRent(i: nat) | SpaceAmount(i: nat) | SpaceKind(i: nat)
    | PassingBonus | DoublesStreak | GamblingField

  datatype Issue = Structural(field: Field) | Semantic(field: Field)

  // ---- what a valid configuration is, stated without any procedure ----------

  predicate SpaceOk(s: BoardSpace) {
    && 1 <= |s.id| <= MAX_SPACE_ID_LEN
    && 1 <= |s.name| <= MAX_SPACE_NAME
    && match s.kind
       case Go => true
       case Neutral => true
       case Property =>
         && 1 <= |s.group| <= MAX_GROUP_LEN
         && 1 <= s.price <= MAX_SPACE_PRICE
         && 0 <= s.rent <= MAX_SPACE_RENT
       case Tax => 1 <= s.amount <= MAX_TAX_AMOUNT
       case UnknownKind => false
  }

  ghost predicate UniqueIds(board: seq<BoardSpace>) {
    forall i, j :: 0 <= i < j < |board| ==> board[i].id != board[j].id
  }

  ghost predicate BoardOk(board: seq<BoardSpace>) {
    && MIN_BOARD_SPACES <= |board| <= MAX_BOARD_SPACES
    && board[0].kind == Go
    && UniqueIds(board)
    && forall i :: 0 <= i < |board| ==> SpaceOk(board[i])
  }

  ghost predicate StructureOk(c: GameConfig) {
    && c.version == CONFIG_SCHEMA_VERSION
    && MIN_PLAYERS_FLOOR <= c.minPlayers
    && c.maxPlayers <= MAX_PLAYERS_CEILING
    && 1 <= c.startingMoney <= STARTING_MONEY_MAX
    && 0 <= c.randomEvents.intervalTicks
    && c.victory.kind != UnknownVictory
    && 0 <= c.victory.targetWealth
    && 0 <= c.victory.roundLimit
    && BoardOk(c.board)
    && 0 <= c.rules.passingGoBonus <= MAX_PASSING_GO_BONUS
    && 0 <= c.rules.maxDoublesStreak <= MAX_DOUBLES_STREAK_CEILING
  }

  predicate SemanticsOk(c: GameConfig) {
    && c.minPlayers <= c.maxPlayers
    && (c.gambling.poker || c.gambling.blackjack || c.gambling.casino ==> c.gambling.enabled)
    && (c.randomEvents.enabled ==> 0 < c.randomEvents.intervalTicks)
    && (c.victory.kind == TargetWealth ==> 0 < c.victory.targetWealth && c.startingMoney < c.victory.targetWealth)
    && (c.victory.kind == RoundLimit ==> 0 < c.victory.roundLimit)
    && (c.rules.doublesExtraRoll ==> 2 <= c.rules.maxDoublesStreak)
  }

  ghost predicate Valid(c: GameConfig) {
    StructureOk(c) && SemanticsOk(c)
  }

  ghost function SmallestConfig(): GameConfig {
    GameConfig(CONFIG_SCHEMA_VERSION, 2, 2, 1, Gambling(false, false, false, false), RandomEvents(false, 0),
               Victory(LastStanding, 0, 0),
               [BoardSpace("go", Go, "Start", "", 0, 0, 0), BoardSpace("n1", Neutral, "Fountain", "", 0, 0, 0)],
               PropertyRules(0, false, 0))
  }

  /** The configurations an engine can be built with. */
  type ValidConfig = c: GameConfig | Valid(c) ghost witness SmallestConfig()

  // ---- what is wrong, field by field -------------------------------------------

  predicate SizeOk(board: seq<BoardSpace>) { MIN_BOARD_SPACES <= |board| <= MAX_BOARD_SPACES }

  predicate LengthOk(text: string, max: int) { 1 <= |text| <= max }

  /** An earlier space has this space's id. */
  predicate Repeated(board: seq<BoardSpace>, i: nat)
    requires i < |board|
  {
    exists j :: 0 <= j < i && board[j].id == board[i].id
  }

  /** Space i has this fault, `repeated` telling whether its id was used before. */
  predicate SpaceWrong(i: nat, s: BoardSpace, repeated: bool, f: Field) {
    match f
    case IdOf(k) => k == i && (!LengthOk(s.id, MAX_SPACE_ID_LEN) || repeated)
    case SpaceName(k) => k == i && !LengthOk(s.name, MAX_SPACE_NAME)
    case SpaceGroup(k) => k == i && s.kind == Property && !LengthOk(s.group, MAX_GROUP_LEN)
    case SpacePrice(k) => k == i && s.kind == Property && !(1 <= s.price <= MAX_SPACE_PRICE)
    case SpaceRent(k) => k == i && s.kind == Property && !(0 <= s.rent <= MAX_SPACE_RENT)
    case SpaceAmount(k) => k == i && s.kind == Tax && !(1 <= s.amount <= MAX_TAX_AMOUNT)
    case SpaceKind(k) => k == i && s.kind == UnknownKind
    case _ => false
  }

  /** A board of the wrong size is reported as that and nothing else. */
  predicate BoardWrong(board: seq<BoardSpace>, f: Field) {
    if !SizeOk(board) then f == Spaces
    else (f == FirstKind && board[0].kind != Go)
         || exists i :: 0 <= i < |board| && SpaceWrong(i, board[i], Repeated(board, i), f)
  }

  predicate StructurallyWrong(c: GameConfig, f: Field) {
    match f
    case Version => c.version != CONFIG_SCHEMA_VERSION
    case PlayersMin => c.minPlayers < MIN_PLAYERS_FLOOR
    case PlayersMax => MAX_PLAYERS_CEILING < c.maxPlayers
    case StartingMoney => !(1 <= c.startingMoney <= STARTING_MONEY_MAX)
    case IntervalTicks => c.randomEvents.intervalTicks < 0
    case VictoryKind => c.victory.kind == UnknownVictory
    case TargetWealthField => c.victory.targetWealth < 0
    case RoundLimitField => c.victory.roundLimit < 0
    case PassingBonus => !(0 <= c.rules.passingGoBonus <= MAX_PASSING_GO_BONUS)
    case DoublesStreak => !(0 <= c.rules.maxDoublesStreak <= MAX_DOUBLES_STREAK_CEILING)
    case _ => BoardWrong(c.board, f)
  }

  predicate SemanticallyWrong(c: GameConfig, f: Field) {
    match f
    case PlayersMin => c.maxPlayers < c.minPlayers
    case GamblingField => !c.gambling.enabled && (c.gambling.poker || c.gambling.blackjack || c.gambling.casino)
    case IntervalTicks => c.randomEvents.enabled && c.randomEvents.intervalTicks <= 0
    case TargetWealthField =>
      c.victory.kind == TargetWealth && (c.victory.targetWealth <= 0 || c.victory.targetWealth <= c.startingMoney)
    case RoundLimitField => c.victory.kind == RoundLimit && c.victory.roundLimit <= 0
    case DoublesStreak => c.rules.doublesExtraRoll && c.rules.maxDoublesStreak < 2
    case _ => false
  }

  /** The cross-field rules hold exactly when nothing is wrong with them. */
  lemma {:induction false} SemanticsNothingWrong(c: GameConfig)
    ensures SemanticsOk(c) <==> forall f :: !SemanticallyWrong(c, f)
  {
    if forall f :: !SemanticallyWrong(c, f) {
      assert !SemanticallyWrong(c, PlayersMin) && !SemanticallyWrong(c, GamblingField) && !SemanticallyWrong(c, IntervalTicks);
      assert !SemanticallyWrong(c, TargetWealthField) && !SemanticallyWrong(c, RoundLimitField);
      assert !SemanticallyWrong(c, DoublesStreak);
    }
  }

  /** The structure is right exactly when nothing is wrong with it. */
  lemma {:induction false} StructureNothingWrong(c: GameConfig)
    ensures StructureOk(c) <==> forall f :: !StructurallyWrong(c, f)
  {
    BoardNothingWrong(c.board);
    hide BoardWrong, BoardOk;
    if StructureOk(c) {
      forall f ensures !StructurallyWrong(c, f) { assert !BoardWrong(c.board, f); }
    }
    if forall f :: !StructurallyWrong(c, f) {
      assert !StructurallyWrong(c, Version) && !StructurallyWrong(c, PlayersMin) && !StructurallyWrong(c, PlayersMax);
      assert !StructurallyWrong(c, StartingMoney) && !StructurallyWrong(c, IntervalTicks) && !StructurallyWrong(c, VictoryKind);
      assert !StructurallyWrong(c, TargetWealthField) && !StructurallyWrong(c, RoundLimitField);
      assert !StructurallyWrong(c, PassingBonus) && !StructurallyWrong(c, DoublesStreak);
      forall f ensures !BoardWrong(c.board, f) {
        assert !StructurallyWrong(c, f);
        BoardFieldsOnly(c.board, f);
      }
    }
  }

  lemma BoardFieldsOnly(board: seq<BoardSpace>, f: Field)
    ensures BoardWrong(board, f) ==>
            f.Spaces? || f.FirstKind? || f.IdOf? || f.SpaceName? || f.SpaceGroup? || f.SpacePrice? || f.SpaceRent?
            || f.SpaceAmount? || f.SpaceKind?
  {
  }

  lemma {:induction false} SpaceNothingWrong(i: nat, s: BoardSpace)
    ensures SpaceOk(s) <==> forall f :: !SpaceWrong(i, s, false, f)
  {
    if forall f :: !SpaceWrong(i, s, false, f) {
      assert !SpaceWrong(i, s, false, IdOf(i)) && !SpaceWrong(i, s, false, SpaceName(i));
      assert !SpaceWrong(i, s, false, SpaceGroup(i)) && !SpaceWrong(i, s, false, SpacePrice(i)) && !SpaceWrong(i, s, false, SpaceRent(i));
      assert !SpaceWrong(i, s, false, SpaceAmount(i)) && !SpaceWrong(i, s, false, SpaceKind(i));
    }
  }

  lemma {:induction false} BoardNothingWrong(board: seq<BoardSpace>)
    ensures BoardOk(board) <==> forall f :: !BoardWrong(board, f)
  {
    if BoardOk(board) {
      forall f ensures !BoardWrong(board, f) {
        forall i | 0 <= i < |board| ensures !SpaceWrong(i, board[i], Repeated(board, i), f) {
          assert SpaceOk(board[i]);
          SpaceNothingWrong(i, board[i]);
          assert !Repeated(board, i);
        }
      }
    }
    if forall f :: !BoardWrong(board, f) {
      assert !BoardWrong(board, Spaces) && !BoardWrong(board, FirstKind);
      forall i | 0 <= i < |board| ensures SpaceOk(board[i]) && !Repeated(board, i) {
        assert !BoardWrong(board, IdOf(i));
        forall f ensures !SpaceWrong(i, board[i], false, f) {
          assert !BoardWrong(board, f);
        }
        SpaceNothingWrong(i, board[i]);
      }
      forall i, j | 0 <= i < j < |board| ensures board[i].id != board[j].id {
        assert !Repeated(board, j);
      }
    }
  }

  // ---- the validator, issue by issue ----------------------------------------

  /** The issue is added if the fault is there. */
  method AddIf(issues: seq<Issue>, fault: bool, issue: Issue) returns (r: seq<Issue>)
    ensures forall x :: x in r <==> x in issues || (fault && x == issue)
  {
    r := if fault then issues + [issue] else issues;
  }

  /** The fields a space has because of its kind. */
  predicate IsOfKind(f: Field) { f.SpaceGroup? || f.SpacePrice? || f.SpaceRent? || f.SpaceAmount? || f.SpaceKind? }

  method KindIssues(i: nat, s: BoardSpace) returns (issues: seq<Issue>)
    ensures forall x :: x in issues <==> x.Structural? && IsOfKind(x.field) && SpaceWrong(i, s, false, x.field)
  {
    issues := [];
    match s.kind {
      case Go =>
      case Neutral =>
      case Property =>
        issues := AddIf(issues, |s.group| == 0 || |s.group| > MAX_GROUP_LEN, Structural(SpaceGroup(i)));
        issues := AddIf(issues, s.price <= 0 || s.price > MAX_SPACE_PRICE, Structural(SpacePrice(i)));
        issues := AddIf(issues, s.rent < 0 || s.rent > MAX_SPACE_RENT, Structural(SpaceRent(i)));
      case Tax =>
        issues := AddIf(issues, s.amount <= 0 || s.amount > MAX_TAX_AMOUNT, Structural(SpaceAmount(i)));
      case UnknownKind =>
        issues := issues + [Structural(SpaceKind(i))];
    }
  }

  /** The issues one space adds, given the ids accepted before it. */
  method SpaceIssues(i: nat, s: BoardSpace, seen: set<string>) returns (issues: seq<Issue>, seen': set<string>)
    ensures forall x :: x in issues <==>
              x.Structural? && SpaceWrong(i, s, LengthOk(s.id, MAX_SPACE_ID_LEN) && s.id in seen, x.field)
    ensures seen' == if LengthOk(s.id, MAX_SPACE_ID_LEN) then seen + {s.id} else seen
  {
    seen' := seen;
    var fault := true;
    if |s.id| == 0 || |s.id| > MAX_SPACE_ID_LEN {
    } else if s.id in seen {
    } else {
      seen' := seen + {s.id};
      fault := false;
    }
    issues := AddIf([], fault, Structural(IdOf(i)));
    issues := AddIf(issues, |s.name| == 0 || |s.name| > MAX_SPACE_NAME, Structural(SpaceName(i)));
    var kind := KindIssues(i, s);
    issues := issues + kind;
  }

  /** An issue of the first space or of one of the first n. */
  predicate WrongBelow(board: seq<BoardSpace>, n: nat, f: Field)
    requires 0 < |board| && n <= |board|
  {
    (f == FirstKind && board[0].kind != Go)
    || exists i :: 0 <= i < n && SpaceWrong(i, board[i], Repeated(board, i), f)
  }

  /** Exactly what is wrong with the board is reported. */
  method ValidateBoardStructural(board: seq<BoardSpace>) returns (issues: seq<Issue>)
    ensures forall x :: x in issues <==> x.Structural? && BoardWrong(board, x.field)
    ensures issues == [] <==> BoardOk(board)
  {
    BoardNothingWrong(board);
    hide BoardOk;
    issues := [];
    var n := |board|;
    if n < MIN_BOARD_SPACES || n > MAX_BOARD_SPACES {
      issues := issues + [Structural(Spaces)];
      assert BoardWrong(board, Spaces);
      return;
    }
    issues := AddIf(issues, board[0].kind != Go, Structural(FirstKind));
    var seen: set<string> := {};
    for i := 0 to n
      invariant forall x :: x in issues <==> x.Structural? && WrongBelow(board, i, x.field)
      invariant forall id :: id in seen <==> LengthOk(id, MAX_SPACE_ID_LEN) && exists k :: 0 <= k < i && board[k].id == id
    {
      var added, seen' := SpaceIssues(i, board[i], seen);
      SameFault(i, board[i], Repeated(board, i), LengthOk(board[i].id, MAX_SPACE_ID_LEN) && board[i].id in seen);
      ghost var before := issues;
      issues, seen := issues + added, seen';
      forall x ensures x in issues <==> x.Structural? && WrongBelow(board, i + 1, x.field) {
        assert x in issues <==> x in before || x in added;
      }
    }
    EmptyOrNot(issues);
    forall f | issues == [] ensures !BoardWrong(board, f) { assert Structural(f) !in issues; }
  }

  /** A space of bad length is at fault whether or not its id is repeated. */
  lemma SameFault(i: nat, s: BoardSpace, a: bool, b: bool)
    requires LengthOk(s.id, MAX_SPACE_ID_LEN) ==> a == b
    ensures forall f :: SpaceWrong(i, s, a, f) == SpaceWrong(i, s, b, f)
  {
  }

  lemma {:induction false} EmptyOrNot(issues: seq<Issue>)
    ensures issues == [] <==> forall x :: x !in issues
  {
    if issues != [] { assert issues[0] in issues; }
  }

  predicate IsScalar(f: Field) {
    f.Version? || f.PlayersMin? || f.PlayersMax? || f.StartingMoney? || f.IntervalTicks? || f.VictoryKind?
    || f.TargetWealthField? || f.RoundLimitField?
  }

  predicate IsRule(f: Field) { f.PassingBonus? || f.DoublesStreak? }

  method ScalarIssues(c: GameConfig) returns (issues: seq<Issue>)
    ensures forall x :: x in issues <==> x.Structural? && IsScalar(x.field) && StructurallyWrong(c, x.field)
  {
    issues := PlayerIssues(c);
    issues := AddIf(issues, c.randomEvents.intervalTicks < 0, Structural(IntervalTicks));
    issues := AddIf(issues, c.victory.kind == UnknownVictory, Structural(VictoryKind));
    issues := AddIf(issues, c.victory.targetWealth < 0, Structural(TargetWealthField));
    issues := AddIf(issues, c.victory.roundLimit < 0, Structural(RoundLimitField));
  }

  method PlayerIssues(c: GameConfig) returns (issues: seq<Issue>)
    ensures forall x :: x in issues <==>
              x.Structural? && (x.field.Version? || x.field.PlayersMin? || x.field.PlayersMax? || x.field.StartingMoney?)
              && StructurallyWrong(c, x.field)
  {
    issues := [];
    issues := AddIf(issues, c.version != CONFIG_SCHEMA_VERSION, Structural(Version));
    issues := AddIf(issues, c.minPlayers < MIN_PLAYERS_FLOOR, Structural(PlayersMin));
    issues := AddIf(issues, c.maxPlayers > MAX_PLAYERS_CEILING, Structural(PlayersMax));
    issues := AddIf(issues, c.startingMoney <= 0 || c.startingMoney > STARTING_MONEY_MAX, Structural(StartingMoney));
  }

  method RuleIssues(c: GameConfig) returns (issues: seq<Issue>)
    ensures forall x :: x in issues <==> x.Structural? && IsRule(x.field) && StructurallyWrong(c, x.field)
  {
    issues := [];
    issues := AddIf(issues, c.rules.passingGoBonus < 0, Structural(PassingBonus));
    issues := AddIf(issues, c.rules.passingGoBonus > MAX_PASSING_GO_BONUS, Structural(PassingBonus));
    issues := AddIf(issues, c.rules.maxDoublesStreak > MAX_DOUBLES_STREAK_CEILING, Structural(DoublesStreak));
    issues := AddIf(issues, c.rules.maxDoublesStreak < 0, Structural(DoublesStreak));
  }

  /** Exactly what is wrong with the structure is reported. */
  method ValidateStructural(c: GameConfig) returns (issues: seq<Issue>)
    ensures forall x :: x in issues <==> x.Structural? && StructurallyWrong(c, x.field)
    ensures issues == [] <==> StructureOk(c)
  {
    var scalar := ScalarIssues(c);
    var board := ValidateBoardStructural(c.board);
    var rules := RuleIssues(c);
    issues := scalar + board + rules;
    forall f
      ensures StructurallyWrong(c, f) <==> ((IsScalar(f) || IsRule(f)) && StructurallyWrong(c, f)) || BoardWrong(c.board, f)
    {
      BoardFieldsOnly(c.board, f);
    }
    StructureNothingWrong(c);
    EmptyOrNot(issues);
    hide StructurallyWrong, BoardWrong, StructureOk, IsScalar, IsRule;
    forall f | issues == [] ensures !StructurallyWrong(c, f) { assert Structural(f) !in issues; }
  }

  method VictoryIssues(c: GameConfig) returns (issues: seq<Issue>)
    ensures forall x :: x in issues <==>
              x.Semantic? && (x.field.TargetWealthField? || x.field.RoundLimitField?) && SemanticallyWrong(c, x.field)
  {
    issues := [];
    match c.victory.kind {
      case TargetWealth =>
        if c.victory.targetWealth <= 0 {
          issues := [Semantic(TargetWealthField)];
        } else if c.victory.targetWealth <= c.startingMoney {
          issues := [Semantic(TargetWealthField)];
        }
      case RoundLimit =>
        if c.victory.roundLimit <= 0 {
          issues := [Semantic(RoundLimitField)];
        }
      case LastStanding =>
      case UnknownVictory =>
    }
  }

  /** Exactly what is wrong across fields is reported. */
  method ValidateSemantics(c: GameConfig) returns (issues: seq<Issue>)
    ensures forall x :: x in issues <==> x.Semantic? && SemanticallyWrong(c, x.field)
    ensures issues == [] <==> SemanticsOk(c)
  {
    issues := [];
    issues := AddIf(issues, c.minPlayers > c.maxPlayers, Semantic(PlayersMin));
    var games := c.gambling.poker || c.gambling.blackjack || c.gambling.casino;
    issues := AddIf(issues, !c.gambling.enabled && games, Semantic(GamblingField));
    issues := AddIf(issues, c.randomEvents.enabled && c.randomEvents.intervalTicks <= 0, Semantic(IntervalTicks));
    var victory := VictoryIssues(c);
    issues := issues + victory;
    issues := AddIf(issues, c.rules.doublesExtraRoll && c.rules.maxDoublesStreak < 2, Semantic(DoublesStreak));
    SemanticsNothingWrong(c);
    EmptyOrNot(issues);
    hide SemanticsOk;
    forall f | issues == [] ensures !SemanticallyWrong(c, f) { assert Semantic(f) !in issues; }
  }

  /** Structural faults are reported alone; without any, the semantic ones are. */
  method Validate(c: GameConfig) returns (issues: seq<Issue>)
    ensures forall x :: x in issues <==>
              match x
              case Structural(f) => StructurallyWrong(c, f)
              case Semantic(f) => StructureOk(c) && SemanticallyWrong(c, f)
    ensures issues == [] <==> Valid(c)
  {
    hide StructureOk, SemanticsOk, StructurallyWrong, SemanticallyWrong;
    StructureNothingWrong(c);
    issues := ValidateStructural(c);
    if issues == [] {
      issues := ValidateSemantics(c);
    }
  }
}
