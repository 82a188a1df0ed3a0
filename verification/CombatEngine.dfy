/** First-slice combat: initiative, strikes, movement and cyclic turn order. */
module CombatEngine {
  import opened Basics
  import opened Dice
  import Sorting
  import Text

  datatype Position = Close | Near | Far | BehindCover

  datatype Attack = Attack(id: string, modifier: int, damage: string, range: Option<string>)

  datatype Combatant = Combatant(
    id: string, name: string, currentHp: int, maxHp: int, armorClass: int, perception: int, attacks: seq<Attack>)

  /** A character sheet: what combat copies from it, and its skills. */
  datatype Sheet = Sheet(body: Combatant, skills: map<string, int>)

  datatype InitiativeEntry = InitiativeEntry(id: string, initiative: int)

  datatype CombatState = CombatState(
    round: int, active: string, order: seq<InitiativeEntry>, combatants: seq<Combatant>,
    positions: map<string, Position>, actions: map<string, int>, reactions: map<string, bool>)

  datatype Check = Check(roll: Roll, degree: Degree)

  // ---------------------------------------------------------------- checks and initiative

  function Modifier(sheet: Sheet, stat: string): Option<int> {
    if stat == "perception" then Some(sheet.body.perception)
    else if stat in sheet.skills then Some(sheet.skills[stat])
    else None
  }

  function ResolveCheck(dice: Dice, sheet: Sheet, stat: string, dc: int, index: nat): Result<Check, Error> {
    match Modifier(sheet, stat)
    case None => Err(ValueError)
    case Some(modifier) =>
      var roll := RollD20(dice, stat, sheet.body.id, modifier, index, Some(dc));
      match ComputeDegree(roll.natural, roll.total, dc)
      case Err(e) => Err(e)
      case Ok(degree) => Ok(Check(roll, degree))
  }

  /** The roll of the combatant at place `k`: the character's perception check, then one roll per enemy. */
  function InitiativeCheck(dice: Dice, combatants: seq<Combatant>, k: nat, index: nat): Check
    requires k < |combatants|
  {
    var c := combatants[k];
    if k == 0 then
      var roll := RollD20(dice, "perception", c.id, c.perception, index, Some(10));
      Check(roll, ComputeDegree(roll.natural, roll.total, 10).value)
    else Check(RollD20(dice, "initiative", c.id, c.perception, index + k, None), Success)
  }

  function RollInitiative(dice: Dice, combatants: seq<Combatant>, index: nat): (r: seq<Check>)
    ensures |r| == |combatants|
    ensures forall k :: 0 <= k < |r| ==> r[k] == InitiativeCheck(dice, combatants, k, index)
  {
    seq(|combatants|, k requires 0 <= k < |combatants| => InitiativeCheck(dice, combatants, k, index))
  }

  /** What initiative is sorted by: the actor read from the roll id, the total, and the actor's modifier. */
  datatype InitiativeKey = InitiativeKey(id: string, total: int, modifier: int)

  predicate InitiativeBefore(a: InitiativeKey, b: InitiativeKey) {
    || a.total > b.total
    || (a.total == b.total && a.modifier > b.modifier)
    || (a.total == b.total && a.modifier == b.modifier && Text.Less(a.id, b.id))
  }

  function ModifierById(combatants: seq<Combatant>): map<string, int> {
    if combatants == [] then map[]
    else
      var last := combatants[|combatants| - 1];
      ModifierById(combatants[..|combatants| - 1])[last.id := last.perception]
  }

  /** None when a roll id names no known combatant. */
  function KeyOf(check: Check, modifiers: map<string, int>): Option<InitiativeKey> {
    match ActorOfRollId(check.roll.rollId)
    case None => None
    case Some(id) => if id in modifiers then Some(InitiativeKey(id, check.roll.total, modifiers[id])) else None
  }

  function KeysOf(checks: seq<Check>, modifiers: map<string, int>): Option<seq<InitiativeKey>> {
    if checks == [] then Some([])
    else
      match (KeyOf(checks[0], modifiers), KeysOf(checks[1..], modifiers))
      case (Some(k), Some(rest)) => Some([k] + rest)
      case _ => None
  }

  function Entries(keys: seq<InitiativeKey>): (r: seq<InitiativeEntry>)
    ensures |r| == |keys| && forall i :: 0 <= i < |r| ==> r[i] == InitiativeEntry(keys[i].id, keys[i].total)
  {
    seq(|keys|, i requires 0 <= i < |keys| => InitiativeEntry(keys[i].id, keys[i].total))
  }

  function StartPositions(enemies: seq<Combatant>, pc: string): map<string, Position> {
    if enemies == [] then map[pc := Near]
    else
      var k := |enemies| - 1;
      StartPositions(enemies[..k], pc)[enemies[k].id := if k == 0 then Close else Far]
  }

  function ForEach<V>(combatants: seq<Combatant>, value: V): (m: map<string, V>)
    ensures forall id :: id in m ==> m[id] == value
  {
    if combatants == [] then map[]
    else ForEach(combatants[1..], value)[combatants[0].id := value]
  }

  function StartState(sheet: Sheet, enemies: seq<Combatant>, order: seq<InitiativeEntry>): CombatState
    requires order != []
  {
    var combatants := [sheet.body] + enemies;
    CombatState(1, order[0].id, order, combatants, StartPositions(enemies, sheet.body.id),
                ForEach(combatants, 3), ForEach(combatants, true))
  }

  function StartEncounter(dice: Dice, sheet: Sheet, enemies: seq<Combatant>, index: nat)
    : Result<(CombatState, seq<Check>), Error>
  {
    if |enemies| > 2 then Err(ValueError)
    else
      var combatants := [sheet.body] + enemies;
      var checks := RollInitiative(dice, combatants, index);
      match KeysOf(checks, ModifierById(combatants))
      case None => Err(ValueError)
      case Some(keys) =>
        var order := Entries(Sorting.Sort(InitiativeBefore, keys));
        if order == [] then Err(ValueError)
        else
          Ok((StartState(sheet, enemies, order), checks))
  }

  // ---------------------------------------------------------------- acting

  function FindCombatant(combatants: seq<Combatant>, id: string): (r: Option<Combatant>)
    ensures r.Some? ==> r.value in combatants && r.value.id == id
  {
    if combatants == [] then None
    else if combatants[0].id == id then Some(combatants[0])
    else FindCombatant(combatants[1..], id)
  }

  function FindAttack(attacks: seq<Attack>, id: string): Option<Attack> {
    if attacks == [] then None
    else if attacks[0].id == id then Some(attacks[0])
    else FindAttack(attacks[1..], id)
  }

  predicate HasActions(s: CombatState, id: string) {
    id in s.actions && s.actions[id] > 0
  }

  /** Sides and modifier of the supported damage expressions. */
  function DamageDie(attack: Attack): Option<(nat, int)> {
    if Text.StartsWith(attack.damage, "1d8+4 ") then Some((8, 4))
    else if Text.StartsWith(attack.damage, "1d6 ") then Some((6, 0))
    else None
  }

  function Replaced(combatants: seq<Combatant>, id: string, replacement: Combatant): (r: seq<Combatant>)
    ensures |r| == |combatants|
    ensures forall i :: 0 <= i < |r| ==> r[i] == if combatants[i].id == id then replacement else combatants[i]
  {
    seq(|combatants|, i requires 0 <= i < |combatants| => if combatants[i].id == id then replacement else combatants[i])
  }

  /** Cover helps against ranged attacks only. */
  function StrikeDc(target: Combatant, attack: Attack, position: Position): int {
    target.armorClass + if attack.range.Some? && position.BehindCover? then 2 else 0
  }

  function HpAfter(hp: int, degree: Degree, damage: int): int {
    var lost := if degree.CriticalSuccess? then 2 * damage else damage;
    if hp - lost > 0 then hp - lost else 0
  }

  /** The damage roll of a hit; it shares the attack's roll index. */
  function DamageRoll(dice: Dice, actor: string, attack: Attack, index: nat): Option<Roll> {
    match DamageDie(attack)
    case None => None
    case Some((sides, modifier)) =>
      match RollDie(dice, sides, "damage_" + attack.id, actor, modifier, index, None)
      case Ok(roll) => Some(roll)
      case Err(_) => None
  }

  datatype Strike = Strike(state: CombatState, check: Check, damage: Option<Roll>)

  function StruckState(s: CombatState, actor: string, target: Combatant, hp: int): CombatState
    requires actor in s.actions
  {
    s.(combatants := Replaced(s.combatants, target.id, target.(currentHp := hp)),
       actions := s.actions[actor := s.actions[actor] - 1])
  }

  function ResolveStrike(dice: Dice, s: CombatState, actor: string, target: string, attackId: string, index: nat)
    : Result<Strike, Error>
  {
    match (FindCombatant(s.combatants, actor), FindCombatant(s.combatants, target))
    case (Some(a), Some(t)) =>
      if !HasActions(s, actor) then Err(ValueError)
      else
        (match FindAttack(a.attacks, attackId)
         case None => Err(ValueError)
         case Some(attack) =>
           if target !in s.positions then Err(ValueError)
           else if attack.range.None? && !s.positions[target].Close? then Err(ValueError)
           else Struck(dice, s, actor, t, attack, index))
    case _ => Err(ValueError)
  }

  function Struck(
      dice: Dice, s: CombatState, actor: string, t: Combatant, attack: Attack, index: nat): Result<Strike, Error>
    requires HasActions(s, actor) && t.id in s.positions
  {
    var dc := StrikeDc(t, attack, s.positions[t.id]);
    var roll := RollD20(dice, "attack_" + attack.id, actor, attack.modifier, index, Some(dc));
    match ComputeDegree(roll.natural, roll.total, dc)
    case Err(e) => Err(e)
    case Ok(degree) =>
      if degree.Rank() < 2 then Ok(Strike(StruckState(s, actor, t, t.currentHp), Check(roll, degree), None))
      else
        match DamageRoll(dice, actor, attack, index)
        case None => Err(ValueError)
        case Some(damage) =>
          Ok(Strike(StruckState(s, actor, t, HpAfter(t.currentHp, degree, damage.total)), Check(roll, degree),
                    Some(damage)))
  }

  function Move(s: CombatState, actor: string, position: Position): Result<CombatState, Error> {
    if FindCombatant(s.combatants, actor).None? then Err(ValueError)
    else if !HasActions(s, actor) then Err(ValueError)
    else if actor !in s.positions then Err(KeyError)
    else if s.positions[actor] == position then Err(ValueError)
    else Ok(s.(positions := s.positions[actor := position], actions := s.actions[actor := s.actions[actor] - 1]))
  }

  // ---------------------------------------------------------------- turn order

  function LivingIds(combatants: seq<Combatant>): set<string> {
    set c | c in combatants && c.currentHp > 0 :: c.id
  }

  function Ids(order: seq<InitiativeEntry>): (r: seq<string>)
    ensures |r| == |order| && forall i :: 0 <= i < |r| ==> r[i] == order[i].id
  {
    seq(|order|, i requires 0 <= i < |order| => order[i].id)
  }

  function IndexOf(ids: seq<string>, id: string): (r: Option<nat>)
    ensures r.Some? ==> r.value < |ids| && ids[r.value] == id
    ensures r.None? ==> id !in ids
  {
    if ids == [] then None
    else if ids[0] == id then Some(0)
    else match IndexOf(ids[1..], id) case Some(i) => Some(i + 1) case None => None
  }

  /** The search over offsets 1, 2, ..., n behind the current place. */
  function NextLiving(ids: seq<string>, living: set<string>, current: nat, offset: nat): (r: Option<nat>)
    requires current < |ids|
    ensures r.Some? ==> r.value < |ids| && ids[r.value] in living
    decreases |ids| + 1 - offset
  {
    if offset > |ids| then None
    else
      var next := (current + offset) % |ids|;
      if ids[next] in living then Some(next) else NextLiving(ids, living, current, offset + 1)
  }

  function EndTurn(s: CombatState): Result<CombatState, Error> {
    var living := LivingIds(s.combatants);
    if living == {} then Ok(s)
    else
      var ids := Ids(s.order);
      match IndexOf(ids, s.active)
      case None => Err(ValueError)
      case Some(current) =>
        match NextLiving(ids, living, current, 1)
        case None => Ok(s)
        case Some(next) =>
          Ok(s.(round := s.round + (if next <= current then 1 else 0),
                active := ids[next],
                actions := s.actions[ids[next] := 3],
                reactions := s.reactions[ids[next] := true]))
  }

  /** The character is down, or every enemy is; there is always a character. */
  predicate EncounterComplete(s: CombatState)
    requires s.combatants != []
  {
    s.combatants[0].currentHp == 0 || forall i :: 1 <= i < |s.combatants| ==> s.combatants[i].currentHp == 0
  }
}
