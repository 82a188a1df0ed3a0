/** One rules turn per player command, and what every run of turns keeps. */
module RulesTurn {
  import opened Basics
  import opened Dice
  import opened CombatEngine
  import CombatRun
  import Text

  datatype Phase = Play | Combat

  /** A line of pending narration: the ones a rules turn writes, or anyone else's. */
  datatype Line = DamageLine(rollId: string) | CombatOver | Help | BudgetHint | Refused | Other(text: string)

  /** A check result; the effect of a hit names its damage roll. */
  datatype Entry = Entry(check: Check, damage: Option<Roll>)

  datatype TurnState = TurnState(
    sheet: Sheet, combat: Option<CombatState>, checks: seq<Entry>, phase: Phase, narration: seq<Line>)

  datatype Action = SkillCheck | StartCombat | StrikeAction | MoveAction | EndTurnAction | NoAction

  datatype Candidate = Candidate(
    action: Action, budgetFallback: bool, stat: Option<string>, dc: Option<int>, target: Option<string>,
    attack: Option<string>, position: Option<string>)

  /**
   A player's text as the intent layer sees it: the legacy perception command, text that looks
   mechanical, and the ranked candidates of the fixed patterns and of the language model.
   */
  datatype Input =
    | NoInput
    | Text(legacy: bool, mechanical: bool, fixedIntents: seq<Candidate>, modelIntents: seq<Candidate>)

  /** The keys a rules turn writes; a missing key leaves the state as it is. */
  datatype Updates = Updates(
    combat: Option<CombatState>, checks: Option<seq<Entry>>, phase: Option<Phase>, narration: Option<seq<Line>>)

  const NOTHING := Updates(None, None, None, None)

  function FirstSliceEnemies(): seq<Combatant> {
    [Combatant("enemy_weak_melee", "Weak Melee Foe", 8, 8, 15, 3,
               [Attack("rusty_blade", 5, "1d6 slashing", None)]),
     Combatant("enemy_weak_ranged", "Weak Ranged Foe", 6, 6, 14, 4,
               [Attack("shortbow", 5, "1d6 piercing", Some("60 feet"))])]
  }

  function PositionNamed(name: string): Option<Position> {
    match name
    case "close" => Some(Close)
    case "near" => Some(Near)
    case "far" => Some(Far)
    case "behind_cover" => Some(BehindCover)
    case _ => None
  }

  function Complaint(s: TurnState, line: Line): Updates {
    Updates(None, Some(s.checks), None, Some([line]))
  }

  function CombatUpdate(combat: CombatState, checks: seq<Entry>, narration: seq<Line>): Result<Updates, Error> {
    if combat.combatants == [] then Err(IndexError)
    else if EncounterComplete(combat) then
      Ok(Updates(Some(combat), Some(checks), Some(Play), Some(narration + [CombatOver])))
    else Ok(Updates(Some(combat), Some(checks), None, if narration == [] then None else Some(narration)))
  }

  function InitiativeEntries(checks: seq<Check>): (r: seq<Entry>)
    ensures |r| == |checks| && forall i :: 0 <= i < |r| ==> r[i] == Entry(checks[i], None)
  {
    seq(|checks|, i requires 0 <= i < |checks| => Entry(checks[i], None))
  }

  function SkillTurn(dice: Dice, s: TurnState, stat: string, dc: int): Result<Updates, Error> {
    match ResolveCheck(dice, s.sheet, stat, dc, |s.checks|)
    case Err(e) => Err(e)
    case Ok(check) => Ok(Updates(None, Some(s.checks + [Entry(check, None)]), None, None))
  }

  function StartTurn(dice: Dice, s: TurnState): Result<Updates, Error> {
    match StartEncounter(dice, s.sheet, FirstSliceEnemies(), |s.checks|)
    case Err(e) => Err(e)
    case Ok((combat, rolls)) => Ok(Updates(Some(combat), Some(s.checks + InitiativeEntries(rolls)), Some(Combat), None))
  }

  function StrikeUpdate(s: TurnState, r: Strike): Result<Updates, Error> {
    var narration := s.narration + if r.damage.Some? then [DamageLine(r.damage.value.rollId)] else [];
    CombatUpdate(r.state, s.checks + [Entry(r.check, r.damage)], narration)
  }

  function StrikeTurn(
      dice: Dice, s: TurnState, combat: CombatState, target: string, attack: string): Result<Updates, Error>
  {
    match ResolveStrike(dice, combat, s.sheet.body.id, target, attack, |s.checks|)
    case Err(e) => Err(e)
    case Ok(r) => StrikeUpdate(s, r)
  }

  function MoveTurn(s: TurnState, combat: CombatState, position: string): Result<Updates, Error> {
    match PositionNamed(position)
    case None => Err(ValueError)
    case Some(p) =>
      match Move(combat, s.sheet.body.id, p)
      case Err(e) => Err(e)
      case Ok(moved) => CombatUpdate(moved, s.checks, s.narration)
  }

  function EndTurnTurn(s: TurnState, combat: CombatState): Result<Updates, Error> {
    match EndTurn(combat)
    case Err(e) => Err(e)
    case Ok(ended) => CombatUpdate(ended, s.checks, s.narration)
  }

  /** The best candidate, carried out; an error here is raised. */
  function CarryOut(dice: Dice, s: TurnState, c: Candidate): Result<Updates, Error> {
    match c.action
    case NoAction => Ok(Complaint(s, Help))
    case SkillCheck =>
      if c.stat.None? || c.dc.None? then Ok(Complaint(s, Help)) else SkillTurn(dice, s, c.stat.value, c.dc.value)
    case StartCombat => StartTurn(dice, s)
    case StrikeAction =>
      if s.combat.None? then Err(ValueError)
      else if c.target.None? || c.attack.None? then Ok(Complaint(s, Help))
      else StrikeTurn(dice, s, s.combat.value, c.target.value, c.attack.value)
    case MoveAction =>
      if s.combat.None? then Err(ValueError)
      else if c.position.None? then Ok(Complaint(s, Help))
      else MoveTurn(s, s.combat.value, c.position.value)
    case EndTurnAction =>
      if s.combat.None? then Err(ValueError) else EndTurnTurn(s, s.combat.value)
  }

  /** Only a ValueError is caught. */
  function Guarded(s: TurnState, r: Result<Updates, Error>): Result<Updates, Error> {
    if r == Err(ValueError) then Ok(Complaint(s, Refused)) else r
  }

  function ResolveRulesTurn(dice: Dice, s: TurnState, input: Input): Result<Updates, Error> {
    match input
    case NoInput => Ok(NOTHING)
    case Text(legacy, mechanical, fixedIntents, modelIntents) =>
      if legacy || (mechanical && fixedIntents == []) then Ok(Complaint(s, Help))
      else
        var candidates := if fixedIntents != [] then fixedIntents else modelIntents;
        if candidates == [] then Ok(NOTHING)
        else if candidates[0].action.NoAction? then
          if candidates[0].budgetFallback then Ok(Complaint(s, BudgetHint))
          else if mechanical then Ok(Complaint(s, Help))
          else Ok(NOTHING)
        else Guarded(s, CarryOut(dice, s, candidates[0]))
  }

  function Merged(s: TurnState, u: Updates): TurnState {
    TurnState(s.sheet,
              if u.combat.Some? then u.combat else s.combat,
              if u.checks.Some? then u.checks.value else s.checks,
              if u.phase.Some? then u.phase.value else s.phase,
              if u.narration.Some? then u.narration.value else s.narration)
  }

  /** What the next turn starts from: a combat state that was ever set brings back the combat phase. */
  function TurnStarted(s: TurnState): TurnState {
    s.(phase := if s.combat.Some? then Combat else Play)
  }

  // ---------------------------------------------------------------- roll ids

  /** The index printed at the end of a roll id. */
  function RollIndex(rollId: string): Option<nat> {
    var digits := Text.AfterLast(rollId, '_');
    if digits != "" && Text.IsDigits(digits) then Some(Text.Value(digits)) else None
  }

  predicate Numbered(e: Entry, i: nat) {
    && RollIndex(e.check.roll.rollId) == Some(i)
    && (e.damage.Some? ==>
          && RollIndex(e.damage.value.rollId) == Some(i)
          && Text.StartsWith(e.check.roll.rollId, "roll_attack_")
          && Text.StartsWith(e.damage.value.rollId, "roll_damage_"))
  }

  ghost predicate AllNumbered(checks: seq<Entry>) {
    forall i :: 0 <= i < |checks| ==> Numbered(checks[i], i)
  }

  function IdsOf(e: Entry): seq<string> {
    [e.check.roll.rollId] + if e.damage.Some? then [e.damage.value.rollId] else []
  }

  /** Every roll id of a list of results, damage rolls included. */
  function RollIds(checks: seq<Entry>): seq<string> {
    if checks == [] then [] else RollIds(checks[..|checks| - 1]) + IdsOf(checks[|checks| - 1])
  }

  ghost predicate Unique(ids: seq<string>) {
    forall i, j :: 0 <= i < j < |ids| ==> ids[i] != ids[j]
  }

  lemma AttackIsNotDamage(e: Entry, i: nat)
    requires Numbered(e, i)
    ensures Unique(IdsOf(e)) && forall id :: id in IdsOf(e) ==> RollIndex(id) == Some(i)
  {
    if e.damage.Some? {
      assert e.check.roll.rollId[5] == "roll_attack_"[5] && e.damage.value.rollId[5] == "roll_damage_"[5];
    }
  }

  /** Results numbered by their position have pairwise different roll ids. */
  lemma {:induction false} NumberedRollsDiffer(checks: seq<Entry>)
    requires AllNumbered(checks)
    ensures Unique(RollIds(checks))
    ensures forall id :: id in RollIds(checks) ==> RollIndex(id).Some? && RollIndex(id).value < |checks|
  {
    if checks != [] {
      var n := |checks| - 1;
      NumberedRollsDiffer(checks[..n]);
      AttackIsNotDamage(checks[n], n);
      var before, added := RollIds(checks[..n]), IdsOf(checks[n]);
      forall i, j | 0 <= i < j < |before + added| ensures (before + added)[i] != (before + added)[j] {
        var x, y := (before + added)[i], (before + added)[j];
        assert i < |before| ==> x in before;
        assert j >= |before| ==> y in added;
      }
    }
  }

  lemma RollIndexIs(purpose: string, actor: string, index: nat)
    ensures RollIndex(RollId(purpose, actor, index)) == Some(index)
  {
    RollIdIndex(purpose, actor, index);
    Text.SplitLast("roll_" + purpose + "_" + actor, '_', Text.Padded(index, 6));
  }

  lemma AllNumberedMore(checks: seq<Entry>, more: seq<Entry>)
    requires AllNumbered(checks) && forall k :: 0 <= k < |more| ==> Numbered(more[k], |checks| + k)
    ensures AllNumbered(checks + more)
  {
    forall i | |checks| <= i < |checks + more| ensures Numbered((checks + more)[i], i) {
      assert (checks + more)[i] == more[i - |checks|];
    }
  }

  lemma SkillNumbered(dice: Dice, sheet: Sheet, stat: string, dc: int, index: nat)
    ensures var r := ResolveCheck(dice, sheet, stat, dc, index); r.Ok? ==> Numbered(Entry(r.value, None), index)
  {
    RollIndexIs(stat, sheet.body.id, index);
  }

  lemma InitiativeNumbered(dice: Dice, combatants: seq<Combatant>, k: nat, index: nat)
    requires k < |combatants|
    ensures Numbered(Entry(InitiativeCheck(dice, combatants, k, index), None), index + k)
  {
    RollIndexIs("perception", combatants[k].id, index);
    RollIndexIs("initiative", combatants[k].id, index + k);
  }

  lemma StruckIds(dice: Dice, s: CombatState, actor: string, t: Combatant, attack: Attack, index: nat)
    requires HasActions(s, actor) && t.id in s.positions && Struck(dice, s, actor, t, attack, index).Ok?
    ensures var r := Struck(dice, s, actor, t, attack, index).value;
            && r.check.roll.rollId == RollId("attack_" + attack.id, actor, index)
            && (r.damage.Some? ==> r.damage.value.rollId == RollId("damage_" + attack.id, actor, index))
  {
  }

  lemma PurposeShows(prefix: string, name: string, actor: string, index: nat)
    ensures Text.StartsWith(RollId(prefix + name, actor, index), "roll_" + prefix)
  {
    var id := RollId(prefix + name, actor, index);
    assert id == ("roll_" + prefix) + (name + "_" + actor + "_" + Text.Padded(index, 6));
  }

  lemma StruckNumbered(attack: string, actor: string, index: nat, e: Entry)
    requires e.check.roll.rollId == RollId("attack_" + attack, actor, index)
    requires e.damage.Some? ==> e.damage.value.rollId == RollId("damage_" + attack, actor, index)
    ensures Numbered(e, index)
  {
    RollIndexIs("attack_" + attack, actor, index);
    RollIndexIs("damage_" + attack, actor, index);
    PurposeShows("attack_", attack, actor, index);
    PurposeShows("damage_", attack, actor, index);
  }

  lemma StrikeIsStruck(dice: Dice, s: CombatState, actor: string, target: string, attack: string, index: nat)
    returns (t: Combatant, a: Attack)
    requires ResolveStrike(dice, s, actor, target, attack, index).Ok?
    ensures HasActions(s, actor) && t.id in s.positions
    ensures ResolveStrike(dice, s, actor, target, attack, index) == Struck(dice, s, actor, t, a, index)
  {
    t := FindCombatant(s.combatants, target).value;
    a := FindAttack(FindCombatant(s.combatants, actor).value.attacks, attack).value;
  }

  lemma StrikeNumbered(dice: Dice, s: CombatState, actor: string, target: string, attack: string, index: nat)
    requires ResolveStrike(dice, s, actor, target, attack, index).Ok?
    ensures var r := ResolveStrike(dice, s, actor, target, attack, index).value;
            Numbered(Entry(r.check, r.damage), index)
  {
    var t, a := StrikeIsStruck(dice, s, actor, target, attack, index);
    var r := ResolveStrike(dice, s, actor, target, attack, index).value;
    StruckIds(dice, s, actor, t, a, index);
    StruckNumbered(a.id, actor, index, Entry(r.check, r.damage));
  }

  // ---------------------------------------------------------------- every run of turns

  /** The sheet is a valid character that is none of the enemies. */
  ghost predicate GoodSheet(sheet: Sheet) {
    CombatRun.ValidHp(sheet.body) && CombatRun.DistinctCombatants([sheet.body] + FirstSliceEnemies())
  }

  ghost predicate GoodCombat(c: CombatState) {
    CombatRun.Sound(c) && c.combatants != []
  }

  /** Play with a combat state means that the encounter is over. */
  ghost predicate GoodPhase(combat: Option<CombatState>, phase: Phase) {
    match combat
    case None => phase == Play
    case Some(c) => GoodCombat(c) && (phase == Play ==> EncounterComplete(c))
  }

  ghost predicate Inv(s: TurnState) {
    GoodSheet(s.sheet) && GoodPhase(s.combat, s.phase) && AllNumbered(s.checks)
  }

  datatype Event = Resolve(input: Input) | NextTurn | Narrated(lines: seq<Line>)

  /** An escaped error leaves the state as it was. */
  function Step(dice: Dice, s: TurnState, e: Event): TurnState {
    match e
    case Resolve(input) => (match ResolveRulesTurn(dice, s, input) case Ok(u) => Merged(s, u) case Err(_) => s)
    case NextTurn => TurnStarted(s)
    case Narrated(lines) => s.(narration := lines)
  }

  function Run(dice: Dice, s: TurnState, events: seq<Event>): TurnState {
    if events == [] then s else Step(dice, Run(dice, s, events[..|events| - 1]), events[|events| - 1])
  }

  /** What one carried out command promises: only a ValueError, results only added, and the invariant kept. */
  ghost predicate Keeps(s: TurnState, r: Result<Updates, Error>) {
    match r
    case Err(e) => e == ValueError
    case Ok(u) => Inv(Merged(s, u)) && s.checks <= Merged(s, u).checks
  }

  /** No hit points are ever regained, so an encounter that is over stays over. */
  lemma CompleteStays(before: CombatState, after: CombatState)
    requires GoodCombat(before) && GoodCombat(after) && CombatRun.Continues(before, after)
    requires EncounterComplete(before)
    ensures EncounterComplete(after)
  {
    assert CombatRun.ValidHp(after.combatants[0]);
    if before.combatants[0].currentHp != 0 {
      forall i | 1 <= i < |after.combatants| ensures after.combatants[i].currentHp == 0 {
        assert CombatRun.ValidHp(after.combatants[i]);
      }
    }
  }

  lemma CombatUpdateKeeps(s: TurnState, after: CombatState, more: seq<Entry>, narration: seq<Line>)
    requires Inv(s) && s.combat.Some? && CombatRun.Sound(after) && CombatRun.Continues(s.combat.value, after)
    requires AllNumbered(s.checks + more)
    ensures Keeps(s, CombatUpdate(after, s.checks + more, narration))
  {
    assert after.combatants != [];
    if EncounterComplete(s.combat.value) { CompleteStays(s.combat.value, after); }
  }

  lemma SkillKeeps(dice: Dice, s: TurnState, stat: string, dc: int)
    requires Inv(s)
    ensures Keeps(s, SkillTurn(dice, s, stat, dc))
  {
    var r := ResolveCheck(dice, s.sheet, stat, dc, |s.checks|);
    SkillNumbered(dice, s.sheet, stat, dc, |s.checks|);
    if r.Ok? { AllNumberedMore(s.checks, [Entry(r.value, None)]); }
  }

  lemma RollsNumbered(dice: Dice, combatants: seq<Combatant>, checks: seq<Entry>)
    requires AllNumbered(checks)
    ensures AllNumbered(checks + InitiativeEntries(RollInitiative(dice, combatants, |checks|)))
  {
    var rolls := RollInitiative(dice, combatants, |checks|);
    forall k | 0 <= k < |rolls| ensures Numbered(InitiativeEntries(rolls)[k], |checks| + k) {
      InitiativeNumbered(dice, combatants, k, |checks|);
    }
    AllNumberedMore(checks, InitiativeEntries(rolls));
  }

  lemma StartRolls(dice: Dice, sheet: Sheet, enemies: seq<Combatant>, index: nat)
    requires StartEncounter(dice, sheet, enemies, index).Ok?
    ensures StartEncounter(dice, sheet, enemies, index).value.1 == RollInitiative(dice, [sheet.body] + enemies, index)
  {
  }

  lemma StartedGood(dice: Dice, sheet: Sheet, enemies: seq<Combatant>, index: nat)
    requires CombatRun.DistinctCombatants([sheet.body] + enemies) && |enemies| <= 2
    requires CombatRun.ValidHp(sheet.body) && forall e :: e in enemies ==> CombatRun.ValidHp(e)
    ensures StartEncounter(dice, sheet, enemies, index).Ok?
    ensures GoodCombat(StartEncounter(dice, sheet, enemies, index).value.0)
  {
    CombatRun.StartSound(dice, sheet, enemies, index);
  }

  lemma EnemiesValid()
    ensures |FirstSliceEnemies()| == 2 && forall e :: e in FirstSliceEnemies() ==> CombatRun.ValidHp(e)
  {
  }

  lemma StartKeeps(dice: Dice, s: TurnState)
    requires Inv(s)
    ensures StartTurn(dice, s).Ok? && Keeps(s, StartTurn(dice, s))
  {
    var enemies := FirstSliceEnemies();
    EnemiesValid();
    StartedGood(dice, s.sheet, enemies, |s.checks|);
    StartRolls(dice, s.sheet, enemies, |s.checks|);
    RollsNumbered(dice, [s.sheet.body] + enemies, s.checks);
  }

  lemma OneMoreNumbered(checks: seq<Entry>, e: Entry)
    requires AllNumbered(checks) && Numbered(e, |checks|)
    ensures AllNumbered(checks + [e])
  {
    AllNumberedMore(checks, [e]);
  }

  lemma StrikeUpdateKeeps(s: TurnState, r: Strike)
    requires Inv(s) && s.combat.Some? && CombatRun.Sound(r.state) && CombatRun.Continues(s.combat.value, r.state)
    requires Numbered(Entry(r.check, r.damage), |s.checks|)
    ensures Keeps(s, StrikeUpdate(s, r))
  {
    var e := Entry(r.check, r.damage);
    OneMoreNumbered(s.checks, e);
    var lines := s.narration + if r.damage.Some? then [DamageLine(r.damage.value.rollId)] else [];
    CombatUpdateKeeps(s, r.state, [e], lines);
  }

  lemma StrikeErrors(dice: Dice, s: CombatState, actor: string, target: string, attack: string, index: nat)
    ensures var r := ResolveStrike(dice, s, actor, target, attack, index); r.Err? ==> r.error == ValueError
  {
  }

  lemma StrikeKeeps(dice: Dice, s: TurnState, target: string, attack: string)
    requires Inv(s) && s.combat.Some?
    ensures Keeps(s, StrikeTurn(dice, s, s.combat.value, target, attack))
  {
    var combat, actor, index := s.combat.value, s.sheet.body.id, |s.checks|;
    StrikeErrors(dice, combat, actor, target, attack, index);
    if ResolveStrike(dice, combat, actor, target, attack, index).Ok? {
      StrikeNumbered(dice, combat, actor, target, attack, index);
      CombatRun.StrikeSound(dice, combat, actor, target, attack, index);
      StrikeUpdateKeeps(s, ResolveStrike(dice, combat, actor, target, attack, index).value);
    }
  }

  lemma MoveKeeps(s: TurnState, position: string)
    requires Inv(s) && s.combat.Some?
    ensures Keeps(s, MoveTurn(s, s.combat.value, position))
  {
    var p := PositionNamed(position);
    assert s.checks + [] == s.checks;
    if p.Some? {
      CombatRun.MoveSound(s.combat.value, s.sheet.body.id, p.value);
      var r := Move(s.combat.value, s.sheet.body.id, p.value);
      if r.Ok? { CombatUpdateKeeps(s, r.value, [], s.narration); }
    }
  }

  lemma EndTurnKeeps(s: TurnState)
    requires Inv(s) && s.combat.Some?
    ensures Keeps(s, EndTurnTurn(s, s.combat.value))
  {
    assert s.checks + [] == s.checks;
    CombatRun.EndTurnSound(s.combat.value);
    CombatUpdateKeeps(s, EndTurn(s.combat.value).value, [], s.narration);
  }

  lemma CarryOutKeeps(dice: Dice, s: TurnState, c: Candidate)
    requires Inv(s)
    ensures Keeps(s, CarryOut(dice, s, c))
  {
    match c.action
    case NoAction =>
    case SkillCheck => if c.stat.Some? && c.dc.Some? { SkillKeeps(dice, s, c.stat.value, c.dc.value); }
    case StartCombat => StartKeeps(dice, s);
    case StrikeAction =>
      if s.combat.Some? && c.target.Some? && c.attack.Some? { StrikeKeeps(dice, s, c.target.value, c.attack.value); }
    case MoveAction => if s.combat.Some? && c.position.Some? { MoveKeeps(s, c.position.value); }
    case EndTurnAction => if s.combat.Some? { EndTurnKeeps(s); }
  }

  /** A rules turn never lets an error escape, only adds results, and keeps the invariant. */
  lemma TurnKeeps(dice: Dice, s: TurnState, input: Input)
    requires Inv(s)
    ensures ResolveRulesTurn(dice, s, input).Ok? && Keeps(s, ResolveRulesTurn(dice, s, input))
  {
    match input
    case NoInput =>
    case Text(_, _, fixedIntents, modelIntents) =>
      if fixedIntents != [] { CarryOutKeeps(dice, s, fixedIntents[0]); }
      else if modelIntents != [] { CarryOutKeeps(dice, s, modelIntents[0]); }
  }

  lemma StepKeeps(dice: Dice, s: TurnState, e: Event)
    requires Inv(s)
    ensures Inv(Step(dice, s, e)) && s.checks <= Step(dice, s, e).checks
  {
    if e.Resolve? { TurnKeeps(dice, s, e.input); }
  }

  /**
   Over every run: combat states stay sound, play after combat means that the encounter is over,
   results are only added and the one at place `i` carries roll index `i`.
   */
  lemma {:induction false} RunKeeps(dice: Dice, s: TurnState, events: seq<Event>)
    requires Inv(s)
    ensures Inv(Run(dice, s, events)) && s.checks <= Run(dice, s, events).checks
  {
    if events != [] {
      RunKeeps(dice, s, events[..|events| - 1]);
      StepKeeps(dice, Run(dice, s, events[..|events| - 1]), events[|events| - 1]);
    }
  }

  /** From a fresh character, all roll ids of a run are different, damage rolls included. */
  lemma RollIdsOfRun(dice: Dice, sheet: Sheet, events: seq<Event>)
    requires GoodSheet(sheet)
    ensures var end := Run(dice, TurnState(sheet, None, [], Play, []), events);
            && Unique(RollIds(end.checks))
            && forall i :: 0 <= i < |end.checks| ==> RollIndex(end.checks[i].check.roll.rollId) == Some(i)
  {
    var start := TurnState(sheet, None, [], Play, []);
    RunKeeps(dice, start, events);
    NumberedRollsDiffer(Run(dice, start, events).checks);
  }

  /** A combat command that succeeds returns to play exactly when the encounter is over, and says so last. */
  lemma PlayExactlyWhenOver(s: TurnState, after: CombatState, checks: seq<Entry>, narration: seq<Line>)
    requires after.combatants != [] && s.phase == Combat
    ensures var r := CombatUpdate(after, checks, narration);
            && r.Ok?
            && var t := Merged(s, r.value);
               && (t.phase == Play <==> EncounterComplete(after))
               && (EncounterComplete(after) ==> t.narration != [] && t.narration[|t.narration| - 1] == CombatOver)
               && t.combat == Some(after)
  {
  }

  /**
   A strike that resolves adds one result, and its damage roll, if any, is named in the narration and in the
   result.
   */
  lemma StrikeReported(dice: Dice, s: TurnState, combat: CombatState, target: string, attack: string)
    requires StrikeTurn(dice, s, combat, target, attack).Ok?
    ensures var t := Merged(s, StrikeTurn(dice, s, combat, target, attack).value);
            && |t.checks| == |s.checks| + 1 && t.checks[..|s.checks|] == s.checks
            && var e := t.checks[|s.checks|];
               && (e.damage.Some? <==> e.check.degree.Rank() >= 2)
               && (e.damage.Some? ==> s.narration + [DamageLine(e.damage.value.rollId)] <= t.narration)
               && (e.damage.None? ==> s.narration <= t.narration)
  {
    var r := ResolveStrike(dice, combat, s.sheet.body.id, target, attack, |s.checks|).value;
    CombatRun.StrikeOutcome(dice, combat, s.sheet.body.id, target, attack, |s.checks|);
    UpdateReported(s, r);
  }

  lemma UpdateReported(s: TurnState, r: Strike)
    requires StrikeUpdate(s, r).Ok?
    ensures var t := Merged(s, StrikeUpdate(s, r).value);
            && t.checks == s.checks + [Entry(r.check, r.damage)]
            && s.narration + (if r.damage.Some? then [DamageLine(r.damage.value.rollId)] else []) <= t.narration
  {
  }

  // ---------------------------------------------------------------- what each command does

  /** The turn carries out `c`: the first fixed intent, or without one the first of the model's. */
  ghost predicate Picks(input: Input, c: Candidate) {
    && input.Text? && !input.legacy && (input.mechanical ==> input.fixedIntents != [])
    && (if input.fixedIntents != [] then input.fixedIntents[0] == c
        else input.modelIntents != [] && input.modelIntents[0] == c)
  }

  /** The state after a turn. */
  function AfterTurn(dice: Dice, s: TurnState, input: Input): TurnState {
    Step(dice, s, Resolve(input))
  }

  /** Nothing but a complaint. */
  predicate OnlySays(s: TurnState, line: Line, t: TurnState) {
    t == s.(narration := [line])
  }

  /** What is carried out decides the state after the turn; a ValueError is refused. */
  lemma CarriedOut(dice: Dice, s: TurnState, input: Input, c: Candidate, r: Result<Updates, Error>)
    requires Picks(input, c) && !c.action.NoAction? && r == CarryOut(dice, s, c)
    ensures r == Err(ValueError) ==> OnlySays(s, Refused, AfterTurn(dice, s, input))
    ensures r.Ok? ==> AfterTurn(dice, s, input) == Merged(s, r.value)
  {
  }

  lemma StartMerged(s: TurnState, combat: CombatState, rolls: seq<Check>)
    ensures var t := Merged(s, Updates(Some(combat), Some(s.checks + InitiativeEntries(rolls)), Some(Combat), None));
            && t.combat == Some(combat) && t.phase == Combat
            && |t.checks| == |s.checks| + |rolls| && s.checks <= t.checks
            && (forall k :: 0 <= k < |rolls| ==> t.checks[|s.checks| + k] == Entry(rolls[k], None))
            && t == s.(combat := t.combat, phase := t.phase, checks := t.checks)
  {
  }

  /** A check adds one result, rolled on a d20 with the modifier of the stat; an unknown stat is refused. */
  lemma SkillCheckDone(dice: Dice, s: TurnState, input: Input, c: Candidate)
    requires Picks(input, c) && c.action.SkillCheck?
    ensures var t := AfterTurn(dice, s, input);
            if c.stat.None? || c.dc.None? then OnlySays(s, Help, t)
            else if c.stat != Some("perception") && c.stat.value !in s.sheet.skills then OnlySays(s, Refused, t)
            else
              && |t.checks| == |s.checks| + 1 && s.checks <= t.checks && t == s.(checks := t.checks)
              && var e := t.checks[|s.checks|];
                 var roll, modifier := e.check.roll, if c.stat == Some("perception") then s.sheet.body.perception
                                                     else s.sheet.skills[c.stat.value];
                 && e.damage.None? && roll.sides == 20 && 1 <= roll.natural <= 20 && roll.dc == c.dc
                 && roll.modifier == modifier && roll.total == roll.natural + modifier
                 && roll.rollId == RollId(c.stat.value, s.sheet.body.id, |s.checks|)
                 && (1 < roll.natural < 20 ==>
                       && (e.check.degree == Success || e.check.degree == CriticalSuccess <==> roll.total >= c.dc.value)
                       && (e.check.degree == CriticalSuccess <==> roll.total >= c.dc.value + 10)
                       && (e.check.degree == CriticalFailure <==> roll.total <= c.dc.value - 10))
  {
    if c.stat.Some? && c.dc.Some? && Modifier(s.sheet, c.stat.value).Some? {
      var roll := RollD20(dice, c.stat.value, s.sheet.body.id, Modifier(s.sheet, c.stat.value).value, |s.checks|, c.dc);
      DegreeMeans(roll.natural, roll.total, c.dc.value);
    }
  }

  /** Combat starts with the two first enemies; their rolls are added to the results. */
  lemma CombatStarted(dice: Dice, s: TurnState, input: Input, c: Candidate)
    requires Inv(s) && Picks(input, c) && c.action.StartCombat?
    ensures var r, t := StartEncounter(dice, s.sheet, FirstSliceEnemies(), |s.checks|), AfterTurn(dice, s, input);
            && r.Ok? && t.combat == Some(r.value.0) && t.phase == Combat
            && |t.checks| == |s.checks| + |r.value.1| && s.checks <= t.checks
            && (forall k :: 0 <= k < |r.value.1| ==> t.checks[|s.checks| + k] == Entry(r.value.1[k], None))
            && t == s.(combat := t.combat, phase := t.phase, checks := t.checks)
  {
    StartKeeps(dice, s);
    var r := StartEncounter(dice, s.sheet, FirstSliceEnemies(), |s.checks|);
    assert r.Ok?;
    CarriedOut(dice, s, input, c, StartTurn(dice, s));
    StartMerged(s, r.value.0, r.value.1);
  }

  lemma FirstEnemies()
    ensures var enemies := FirstSliceEnemies();
            && |enemies| == 2
            && enemies[0].id == "enemy_weak_melee" && enemies[0].currentHp == enemies[0].maxHp == 8
            && enemies[0].armorClass == 15 && enemies[0].perception == 3
            && enemies[0].attacks == [Attack("rusty_blade", 5, "1d6 slashing", None)]
            && enemies[1].id == "enemy_weak_ranged" && enemies[1].currentHp == enemies[1].maxHp == 6
            && enemies[1].armorClass == 14 && enemies[1].perception == 4
            && enemies[1].attacks == [Attack("shortbow", 5, "1d6 piercing", Some("60 feet"))]
  {
  }

  /** The combat went on to `after`: an encounter that is over says so and returns to play. */
  ghost predicate WentOn(s: TurnState, after: CombatState, checks: seq<Entry>, said: seq<Line>, t: TurnState) {
    && after.combatants != []
    && var over := after.combatants[0].currentHp == 0
                   || forall i :: 1 <= i < |after.combatants| ==> after.combatants[i].currentHp == 0;
       t == s.(combat := Some(after), checks := checks, phase := if over then Play else s.phase,
               narration := said + if over then [CombatOver] else [])
  }

  /** A command of a fight without one, or without its details, is refused or answered with help. */
  lemma FightNeeded(dice: Dice, s: TurnState, input: Input, c: Candidate)
    requires Picks(input, c) && (c.action.StrikeAction? || c.action.MoveAction? || c.action.EndTurnAction?)
    ensures s.combat.None? ==> OnlySays(s, Refused, AfterTurn(dice, s, input))
    ensures s.combat.Some? && c.action.StrikeAction? && (c.target.None? || c.attack.None?) ==>
              OnlySays(s, Help, AfterTurn(dice, s, input))
    ensures s.combat.Some? && c.action.MoveAction? && c.position.None? ==>
              OnlySays(s, Help, AfterTurn(dice, s, input))
  {
  }

  /** A strike of the character: its result and damage roll are recorded, its state taken over. */
  lemma StrikeDone(dice: Dice, s: TurnState, input: Input, c: Candidate)
    requires Inv(s) && Picks(input, c) && c.action.StrikeAction? && s.combat.Some? && c.target.Some? && c.attack.Some?
    ensures var t := AfterTurn(dice, s, input);
            match ResolveStrike(dice, s.combat.value, s.sheet.body.id, c.target.value, c.attack.value, |s.checks|)
            case Err(_) => OnlySays(s, Refused, t)
            case Ok(r) =>
              WentOn(s, r.state, s.checks + [Entry(r.check, r.damage)],
                     s.narration + if r.damage.Some? then [DamageLine(r.damage.value.rollId)] else [], t)
  {
    var r := ResolveStrike(dice, s.combat.value, s.sheet.body.id, c.target.value, c.attack.value, |s.checks|);
    StrikeCarried(dice, s, c);
    StrikeGoesOn(dice, s.combat.value, s.sheet.body.id, c.target.value, c.attack.value, |s.checks|);
    CarriedOut(dice, s, input, c, CarryOut(dice, s, c));
    if r.Ok? { StrikeWentOn(s, r.value); }
  }

  lemma StrikeCarried(dice: Dice, s: TurnState, c: Candidate)
    requires c.action.StrikeAction? && s.combat.Some? && c.target.Some? && c.attack.Some?
    ensures CarryOut(dice, s, c) ==
            match ResolveStrike(dice, s.combat.value, s.sheet.body.id, c.target.value, c.attack.value, |s.checks|)
            case Ok(strike) => StrikeUpdate(s, strike)
            case Err(e) => Err(e)
  {
  }

  lemma StrikeGoesOn(dice: Dice, combat: CombatState, actor: string, target: string, attack: string, index: nat)
    requires GoodCombat(combat)
    ensures var r := ResolveStrike(dice, combat, actor, target, attack, index);
            (r.Err? ==> r.error == ValueError) && (r.Ok? ==> r.value.state.combatants != [])
  {
    StrikeErrors(dice, combat, actor, target, attack, index);
    if ResolveStrike(dice, combat, actor, target, attack, index).Ok? {
      CombatRun.StrikeSound(dice, combat, actor, target, attack, index);
    }
  }

  lemma StrikeWentOn(s: TurnState, r: Strike)
    requires r.state.combatants != []
    ensures StrikeUpdate(s, r).Ok?
    ensures WentOn(s, r.state, s.checks + [Entry(r.check, r.damage)],
                   s.narration + if r.damage.Some? then [DamageLine(r.damage.value.rollId)] else [],
                   Merged(s, StrikeUpdate(s, r).value))
  {
    UpdateWentOn(s, r.state, s.checks + [Entry(r.check, r.damage)],
                 s.narration + if r.damage.Some? then [DamageLine(r.damage.value.rollId)] else []);
  }

  lemma UpdateWentOn(s: TurnState, after: CombatState, checks: seq<Entry>, said: seq<Line>)
    requires after.combatants != [] && (said == [] ==> s.narration == [])
    ensures CombatUpdate(after, checks, said).Ok?
    ensures WentOn(s, after, checks, said, Merged(s, CombatUpdate(after, checks, said).value))
  {
    assert said + [] == said;
  }

  /** The word for a position. */
  predicate Says(word: string, p: Position) {
    match p
    case Close => word == "close"
    case Near => word == "near"
    case Far => word == "far"
    case BehindCover => word == "behind_cover"
  }

  lemma SaidPosition(word: string, p: Position)
    ensures PositionNamed(word) == Some(p) <==> Says(word, p)
  {
  }

  lemma MoveGoesOn(combat: CombatState, actor: string, p: Position)
    requires GoodCombat(combat)
    ensures var r := Move(combat, actor, p);
            (r.Err? ==> r.error == ValueError) && (r.Ok? ==> r.value.combatants != [])
  {
    CombatRun.MoveSound(combat, actor, p);
    CombatRun.MoveEffect(combat, actor, p);
  }

  lemma MoveCarried(s: TurnState, combat: CombatState, word: string, p: Position)
    requires Says(word, p)
    ensures MoveTurn(s, combat, word) ==
            match Move(combat, s.sheet.body.id, p)
            case Ok(moved) => CombatUpdate(moved, s.checks, s.narration)
            case Err(e) => Err(e)
  {
    SaidPosition(word, p);
  }

  /** A move of the character to a position named as the player writes it. */
  lemma MoveDone(dice: Dice, s: TurnState, input: Input, c: Candidate, p: Position)
    requires Inv(s) && Picks(input, c) && c.action.MoveAction? && s.combat.Some? && c.position.Some?
    requires Says(c.position.value, p)
    ensures var t := AfterTurn(dice, s, input);
            match Move(s.combat.value, s.sheet.body.id, p)
            case Err(_) => OnlySays(s, Refused, t)
            case Ok(moved) => WentOn(s, moved, s.checks, s.narration, t)
  {
    var r := Move(s.combat.value, s.sheet.body.id, p);
    MoveGoesOn(s.combat.value, s.sheet.body.id, p);
    MoveCarried(s, s.combat.value, c.position.value, p);
    CarriedOut(dice, s, input, c, MoveTurn(s, s.combat.value, c.position.value));
    if r.Ok? { UpdateWentOn(s, r.value, s.checks, s.narration); }
  }

  lemma UnknownPosition(dice: Dice, s: TurnState, input: Input, c: Candidate)
    requires Picks(input, c) && c.action.MoveAction? && s.combat.Some? && c.position.Some?
    requires forall p :: !Says(c.position.value, p)
    ensures OnlySays(s, Refused, AfterTurn(dice, s, input))
  {
    forall p { SaidPosition(c.position.value, p); }
    CarriedOut(dice, s, input, c, MoveTurn(s, s.combat.value, c.position.value));
  }

  lemma EndTurnDone(dice: Dice, s: TurnState, input: Input, c: Candidate)
    requires Inv(s) && Picks(input, c) && c.action.EndTurnAction? && s.combat.Some?
    ensures var r, t := EndTurn(s.combat.value), AfterTurn(dice, s, input);
            r.Ok? && WentOn(s, r.value, s.checks, s.narration, t)
  {
    EndTurnGoesOn(s.combat.value);
    EndTurnCarried(dice, s, c);
    CarriedOut(dice, s, input, c, CarryOut(dice, s, c));
    UpdateWentOn(s, EndTurn(s.combat.value).value, s.checks, s.narration);
  }

  lemma EndTurnGoesOn(combat: CombatState)
    requires GoodCombat(combat)
    ensures EndTurn(combat).Ok? && EndTurn(combat).value.combatants != []
  {
    CombatRun.EndTurnSound(combat);
  }

  lemma EndTurnCarried(dice: Dice, s: TurnState, c: Candidate)
    requires c.action.EndTurnAction? && s.combat.Some?
    ensures CarryOut(dice, s, c) ==
            match EndTurn(s.combat.value)
            case Ok(ended) => CombatUpdate(ended, s.checks, s.narration)
            case Err(e) => Err(e)
  {
  }

  /** A turn that carries nothing out says at most one line. */
  lemma NothingDone(dice: Dice, s: TurnState, input: Input)
    ensures var t := AfterTurn(dice, s, input);
            && (input.NoInput? ==> t == s)
            && (input.Text? && (input.legacy || (input.mechanical && input.fixedIntents == [])) ==>
                  OnlySays(s, Help, t))
            && (input.Text? && !input.legacy && !input.mechanical && input.fixedIntents == input.modelIntents == [] ==>
                  t == s)
            && (forall c :: Picks(input, c) && c.action.NoAction? ==>
                  if c.budgetFallback then OnlySays(s, BudgetHint, t)
                  else if input.mechanical then OnlySays(s, Help, t)
                  else t == s)
  {
  }

  /** The candidate whose action the turn carries out, if it comes to that. */
  function Chosen(input: Input): Option<Candidate> {
    match input
    case NoInput => None
    case Text(legacy, mechanical, fixedIntents, modelIntents) =>
      if legacy || (mechanical && fixedIntents == []) then None
      else if fixedIntents != [] then Some(fixedIntents[0])
      else if modelIntents != [] then Some(modelIntents[0])
      else None
  }

  predicate StartsCombat(e: Event) {
    e.Resolve? && Chosen(e.input).Some? && Chosen(e.input).value.action.StartCombat?
  }

  lemma CarriedOutCombat(dice: Dice, s: TurnState, c: Candidate)
    requires Inv(s) && s.combat.None?
    ensures CarryOut(dice, s, c).Err? ==> CarryOut(dice, s, c).error == ValueError
    ensures StartsExactly(CarryOut(dice, s, c), c.action.StartCombat?)
  {
    CarryOutKeeps(dice, s, c);
    match c.action
    case StartCombat => StartKeeps(dice, s);
    case SkillCheck =>
    case _ =>
  }

  /** The update sets a combat state exactly when it should; an error sets none. */
  predicate StartsExactly(r: Result<Updates, Error>, starts: bool) {
    match r
    case Ok(u) => u.combat.Some? <==> starts
    case Err(_) => !starts
  }

  lemma GuardedCombat(s: TurnState, r: Result<Updates, Error>, starts: bool)
    requires StartsExactly(r, starts) && (r.Err? ==> r.error == ValueError)
    ensures Guarded(s, r).Ok? && StartsExactly(Guarded(s, r), starts)
  {
  }

  lemma ResolvedCombat(dice: Dice, s: TurnState, input: Input)
    requires Inv(s) && s.combat.None?
    ensures ResolveRulesTurn(dice, s, input).Ok?
    ensures StartsExactly(ResolveRulesTurn(dice, s, input),
                          Chosen(input).Some? && Chosen(input).value.action.StartCombat?)
  {
    if Chosen(input).Some? && !Chosen(input).value.action.NoAction? {
      var c := Chosen(input).value;
      CarriedOutCombat(dice, s, c);
      GuardedCombat(s, CarryOut(dice, s, c), c.action.StartCombat?);
      assert ResolveRulesTurn(dice, s, input) == Guarded(s, CarryOut(dice, s, c));
    }
  }

  /** Combat begins with a chosen start of combat and with nothing else, and no event ends it. */
  lemma CombatStays(dice: Dice, s: TurnState, e: Event)
    requires Inv(s)
    ensures Step(dice, s, e).combat.Some? <==> s.combat.Some? || StartsCombat(e)
  {
    if e.Resolve? {
      TurnKeeps(dice, s, e.input);
      if s.combat.None? { ResolvedCombat(dice, s, e.input); }
    }
  }

  lemma {:induction false} CombatOfRun(dice: Dice, s: TurnState, events: seq<Event>)
    requires Inv(s)
    ensures Run(dice, s, events).combat.Some?
            <==> s.combat.Some? || exists i :: 0 <= i < |events| && StartsCombat(events[i])
  {
    if events != [] {
      var n := |events| - 1;
      RunKeeps(dice, s, events[..n]);
      CombatOfRun(dice, s, events[..n]);
      CombatStays(dice, Run(dice, s, events[..n]), events[n]);
      assert forall i :: 0 <= i < n ==> events[..n][i] == events[i];
    }
  }

  /**
   The combat state is never cleared: after every run the next turn is a play turn exactly when there
   was no combat before and no turn of the run chose to start one.
   */
  lemma PlayAfterRunExactly(dice: Dice, s: TurnState, events: seq<Event>)
    requires Inv(s)
    ensures TurnStarted(Run(dice, s, events)).phase == Play
            <==> s.combat.None? && forall i :: 0 <= i < |events| ==> !StartsCombat(events[i])
  {
    CombatOfRun(dice, s, events);
  }

  /** So the turn after the end of combat is a combat turn again. */
  lemma CombatComesBack(dice: Dice, s: TurnState, input: Input)
    requires Inv(s) && s.combat.Some?
    ensures TurnStarted(Step(dice, s, Resolve(input))).phase == Combat
  {
    CombatStays(dice, s, Resolve(input));
  }
}
