/** What every reachable combat state keeps, and what initiative and natural rolls mean. */
module CombatRun {
  import opened Basics
  import opened Dice
  import opened CombatEngine
  import Sorting
  import Text
  import TurnOrder

  // ---------------------------------------------------------------- initiative

  predicate DistinctCombatants(combatants: seq<Combatant>) {
    forall i, j :: 0 <= i < j < |combatants| ==> combatants[i].id != combatants[j].id
  }

  function CombatantIds(combatants: seq<Combatant>): (r: seq<string>)
    ensures |r| == |combatants| && forall i :: 0 <= i < |r| ==> r[i] == combatants[i].id
  {
    seq(|combatants|, i requires 0 <= i < |combatants| => combatants[i].id)
  }

  lemma {:induction false} ModifierOf(combatants: seq<Combatant>, k: nat)
    requires DistinctCombatants(combatants) && k < |combatants|
    ensures combatants[k].id in ModifierById(combatants)
            && ModifierById(combatants)[combatants[k].id] == combatants[k].perception
  {
    if k < |combatants| - 1 {
      var front := combatants[..|combatants| - 1];
      assert front[k] == combatants[k];
      ModifierOf(front, k);
    }
  }

  /** The key of a combatant: the one its own initiative roll is meant to give it. */
  function ExpectedKey(dice: Dice, combatants: seq<Combatant>, k: nat, index: nat): InitiativeKey
    requires k < |combatants|
  {
    InitiativeKey(combatants[k].id, InitiativeCheck(dice, combatants, k, index).roll.total, combatants[k].perception)
  }

  /** Reading the actor back from the roll id gives every roll to the combatant that made it. */
  lemma KeyRecovered(dice: Dice, combatants: seq<Combatant>, k: nat, index: nat)
    requires DistinctCombatants(combatants) && k < |combatants|
    ensures KeyOf(InitiativeCheck(dice, combatants, k, index), ModifierById(combatants))
            == Some(ExpectedKey(dice, combatants, k, index))
  {
    ActorOfInitiative(dice, combatants, k, index);
    ModifierOf(combatants, k);
  }

  lemma ActorOfInitiative(dice: Dice, combatants: seq<Combatant>, k: nat, index: nat)
    requires k < |combatants|
    ensures ActorOfRollId(InitiativeCheck(dice, combatants, k, index).roll.rollId) == Some(combatants[k].id)
  {
    ActorRecovered(combatants[k].id, index + k);
  }

  lemma {:induction false} KeysRecovered(checks: seq<Check>, modifiers: map<string, int>, keys: seq<InitiativeKey>)
    requires |keys| == |checks|
    requires forall k :: 0 <= k < |checks| ==> KeyOf(checks[k], modifiers) == Some(keys[k])
    ensures KeysOf(checks, modifiers) == Some(keys)
  {
    if checks != [] {
      KeysRecovered(checks[1..], modifiers, keys[1..]);
      assert keys == [keys[0]] + keys[1..];
    }
  }

  function ExpectedKeys(dice: Dice, combatants: seq<Combatant>, index: nat): (r: seq<InitiativeKey>)
    ensures |r| == |combatants|
    ensures forall k :: 0 <= k < |r| ==> r[k] == ExpectedKey(dice, combatants, k, index)
  {
    seq(|combatants|, k requires 0 <= k < |combatants| => ExpectedKey(dice, combatants, k, index))
  }

  lemma InitiativeBeforeIsStrict()
    ensures Sorting.StrictOrder(InitiativeBefore)
  {
    forall x ensures !InitiativeBefore(x, x) { Text.LessIrreflexive(x.id); }
    forall x, y, z | InitiativeBefore(x, y) && InitiativeBefore(y, z) ensures InitiativeBefore(x, z) {
      if Text.Less(x.id, y.id) && Text.Less(y.id, z.id) { Text.LessTransitive(x.id, y.id, z.id); }
    }
  }

  lemma KeysDistinguished(dice: Dice, combatants: seq<Combatant>, index: nat)
    requires DistinctCombatants(combatants)
    ensures Sorting.Distinguished(InitiativeBefore, ExpectedKeys(dice, combatants, index))
  {
    var keys := ExpectedKeys(dice, combatants, index);
    forall i, j | 0 <= i < j < |keys| ensures InitiativeBefore(keys[i], keys[j]) || InitiativeBefore(keys[j], keys[i]) {
      Text.LessConnected(keys[i].id, keys[j].id);
    }
  }

  /** The encounter starts for at most two enemies, ordered by the sorted keys of its combatants. */
  lemma EncounterStarts(dice: Dice, sheet: Sheet, enemies: seq<Combatant>, index: nat)
    requires DistinctCombatants([sheet.body] + enemies)
    ensures var r := StartEncounter(dice, sheet, enemies, index);
            var keys := ExpectedKeys(dice, [sheet.body] + enemies, index);
            && (r.Ok? <==> |enemies| <= 2)
            && (r.Ok? ==>
                  && r.value.0.order == Entries(Sorting.Sort(InitiativeBefore, keys))
                  && r.value.1 == RollInitiative(dice, [sheet.body] + enemies, index))
  {
    var combatants := [sheet.body] + enemies;
    var checks, keys := RollInitiative(dice, combatants, index), ExpectedKeys(dice, combatants, index);
    forall k | 0 <= k < |checks| ensures KeyOf(checks[k], ModifierById(combatants)) == Some(keys[k]) {
      KeyRecovered(dice, combatants, k, index);
    }
    KeysRecovered(checks, ModifierById(combatants), keys);
    Sorting.SortMultiset(InitiativeBefore, keys);
  }

  /**
   The initiative order is a permutation of the combatants, strictly sorted by total, modifier
   and id, and it is the only one.
   */
  lemma InitiativeIsUnique(dice: Dice, sheet: Sheet, enemies: seq<Combatant>, index: nat, other: seq<InitiativeKey>)
    requires DistinctCombatants([sheet.body] + enemies) && |enemies| <= 2
    ensures var keys := ExpectedKeys(dice, [sheet.body] + enemies, index);
            var sorted := Sorting.Sort(InitiativeBefore, keys);
            && StartEncounter(dice, sheet, enemies, index).Ok?
            && StartEncounter(dice, sheet, enemies, index).value.0.order == Entries(sorted)
            && Sorting.StrictlySorted(InitiativeBefore, sorted)
            && multiset(sorted) == multiset(keys)
            && (Sorting.StrictlySorted(InitiativeBefore, other) && Sorting.SameElements(keys, other)
                ==> other == sorted)
  {
    var keys := ExpectedKeys(dice, [sheet.body] + enemies, index);
    EncounterStarts(dice, sheet, enemies, index);
    InitiativeBeforeIsStrict();
    KeysDistinguished(dice, [sheet.body] + enemies, index);
    Sorting.SortStrict(InitiativeBefore, keys);
    Sorting.SortMultiset(InitiativeBefore, keys);
    if Sorting.StrictlySorted(InitiativeBefore, other) && Sorting.SameElements(keys, other) {
      Sorting.SortUnique(InitiativeBefore, keys, other);
    }
  }

  // ---------------------------------------------------------------- invariants

  /** What the schemas guarantee of a combatant. */
  predicate ValidHp(c: Combatant) {
    0 <= c.currentHp <= c.maxHp && 0 < c.maxHp
  }

  ghost predicate Sound(s: CombatState) {
    && s.round >= 1
    && DistinctCombatants(s.combatants)
    && (forall i :: 0 <= i < |s.combatants| ==> ValidHp(s.combatants[i]))
    && (forall id :: id in s.positions <==> id in CombatantIds(s.combatants))
    && (forall id :: id in s.actions <==> id in CombatantIds(s.combatants))
    && (forall id :: id in s.actions ==> 0 <= s.actions[id] <= 3)
    && TurnOrder.Distinct(Ids(s.order))
    && (forall id :: id in Ids(s.order) <==> id in CombatantIds(s.combatants))
    && s.active in Ids(s.order)
  }

  /** The same combatants in the same order and initiative, with no hit points gained. */
  ghost predicate Continues(before: CombatState, after: CombatState) {
    && |after.combatants| == |before.combatants|
    && (forall i :: 0 <= i < |before.combatants| ==>
          && after.combatants[i] == before.combatants[i].(currentHp := after.combatants[i].currentHp)
          && after.combatants[i].currentHp <= before.combatants[i].currentHp)
    && after.order == before.order
    && after.round >= before.round
  }

  datatype Command =
    | StrikeAt(actor: string, target: string, attack: string, index: nat)
    | MoveTo(actor: string, position: Position)
    | EndOfTurn

  /** The state after a command; a refused command changes nothing. */
  function After(dice: Dice, s: CombatState, cmd: Command): CombatState {
    match cmd
    case StrikeAt(actor, target, attack, index) =>
      (match ResolveStrike(dice, s, actor, target, attack, index) case Ok(r) => r.state case Err(_) => s)
    case MoveTo(actor, position) => (match Move(s, actor, position) case Ok(r) => r case Err(_) => s)
    case EndOfTurn => (match EndTurn(s) case Ok(r) => r case Err(_) => s)
  }

  function Fight(dice: Dice, s: CombatState, cmds: seq<Command>): CombatState {
    if cmds == [] then s else After(dice, Fight(dice, s, cmds[..|cmds| - 1]), cmds[|cmds| - 1])
  }

  lemma DamagePositive(dice: Dice, actor: string, attack: Attack, index: nat)
    ensures DamageRoll(dice, actor, attack, index).Some? ==> DamageRoll(dice, actor, attack, index).value.total >= 1
    ensures DamageRoll(dice, actor, attack, index).Some? <==> DamageDie(attack).Some?
  {
    if DamageDie(attack).Some? {
      RollInRange(dice, DamageDie(attack).value.0, "damage_" + attack.id, actor, DamageDie(attack).value.1, index,
                  None);
    }
  }

  lemma StruckContinues(s: CombatState, actor: string, target: Combatant, hp: int)
    requires DistinctCombatants(s.combatants) && actor in s.actions && target in s.combatants
             && 0 <= hp <= target.currentHp
    ensures Continues(s, StruckState(s, actor, target, hp))
  {
    var k :| 0 <= k < |s.combatants| && s.combatants[k] == target;
    forall i | 0 <= i < |s.combatants| && s.combatants[i].id == target.id ensures s.combatants[i] == target {}
  }

  lemma StruckSound(s: CombatState, actor: string, target: Combatant, hp: int)
    requires Sound(s) && HasActions(s, actor) && target in s.combatants && 0 <= hp <= target.currentHp
    ensures Sound(StruckState(s, actor, target, hp))
  {
    var r := StruckState(s, actor, target, hp);
    StruckContinues(s, actor, target, hp);
    assert CombatantIds(r.combatants) == CombatantIds(s.combatants);
    forall i | 0 <= i < |r.combatants| ensures ValidHp(r.combatants[i]) {
      assert ValidHp(s.combatants[i]);
      assert ValidHp(target);
    }
  }

  /** The hit points a strike leaves its target: none lost on a miss. */
  function HpLeft(target: Combatant, strike: Strike): int {
    match strike.damage
    case Some(roll) => HpAfter(target.currentHp, strike.check.degree, roll.total)
    case None => target.currentHp
  }

  /** A strike that resolves spends one action and hurts nobody but its target. */
  lemma StrikeOutcome(dice: Dice, s: CombatState, actor: string, target: string, attackId: string, index: nat)
    requires ResolveStrike(dice, s, actor, target, attackId, index).Ok?
    ensures var a, t := FindCombatant(s.combatants, actor), FindCombatant(s.combatants, target);
            && a.Some? && t.Some? && HasActions(s, actor)
            && FindAttack(a.value.attacks, attackId).Some? && target in s.positions
            && var attack := FindAttack(a.value.attacks, attackId).value;
               var r := ResolveStrike(dice, s, actor, target, attackId, index).value;
               && r.state == StruckState(s, actor, t.value, HpLeft(t.value, r))
               && r.check.roll.total == r.check.roll.natural + attack.modifier
               && ComputeDegree(r.check.roll.natural, r.check.roll.total,
                                StrikeDc(t.value, attack, s.positions[target]))
                  == Ok(r.check.degree)
               && r.damage == (if r.check.degree.Rank() < 2 then None else DamageRoll(dice, actor, attack, index))
               && (r.check.degree.Rank() >= 2 ==> r.damage.Some?)
  {
  }

  lemma StrikeSound(dice: Dice, s: CombatState, actor: string, target: string, attack: string, index: nat)
    requires Sound(s) && ResolveStrike(dice, s, actor, target, attack, index).Ok?
    ensures var r := ResolveStrike(dice, s, actor, target, attack, index).value.state;
            Sound(r) && Continues(s, r)
  {
    var a, t := FindCombatant(s.combatants, actor).value, FindCombatant(s.combatants, target).value;
    var strike := ResolveStrike(dice, s, actor, target, attack, index).value;
    StrikeOutcome(dice, s, actor, target, attack, index);
    DamagePositive(dice, actor, FindAttack(a.attacks, attack).value, index);
    assert ValidHp(t);
    StruckContinues(s, actor, t, HpLeft(t, strike));
    StruckSound(s, actor, t, HpLeft(t, strike));
  }

  lemma MoveSound(s: CombatState, actor: string, position: Position)
    requires Sound(s)
    ensures Move(s, actor, position) != Err(KeyError)
    ensures Move(s, actor, position).Ok? ==>
              Sound(Move(s, actor, position).value) && Continues(s, Move(s, actor, position).value)
  {
    var found := FindCombatant(s.combatants, actor);
    if found.Some? { InIds(s.combatants, found.value); }
  }

  lemma InIds(combatants: seq<Combatant>, c: Combatant)
    requires c in combatants
    ensures c.id in CombatantIds(combatants)
  {
    var i :| 0 <= i < |combatants| && combatants[i] == c;
    assert CombatantIds(combatants)[i] == c.id;
  }

  /** The next active combatant is one of the order and gets three actions; nothing else moves but the round. */
  lemma EndTurnShape(s: CombatState)
    requires s.active in Ids(s.order)
    ensures EndTurn(s).Ok?
    ensures var r := EndTurn(s).value;
            r == s || (
              && r.active in Ids(s.order) && s.round <= r.round <= s.round + 1
              && r == s.(round := r.round, active := r.active, actions := s.actions[r.active := 3],
                         reactions := r.reactions))
  {
  }

  lemma EndTurnSound(s: CombatState)
    requires Sound(s)
    ensures EndTurn(s).Ok? && Sound(EndTurn(s).value) && Continues(s, EndTurn(s).value)
  {
    EndTurnShape(s);
    var r := EndTurn(s).value;
    assert r.combatants == s.combatants && r.order == s.order && r.positions == s.positions;
  }

  lemma CommandSound(dice: Dice, s: CombatState, cmd: Command)
    requires Sound(s)
    ensures Sound(After(dice, s, cmd)) && Continues(s, After(dice, s, cmd))
  {
    match cmd
    case StrikeAt(actor, target, attack, index) =>
      if ResolveStrike(dice, s, actor, target, attack, index).Ok? {
        StrikeSound(dice, s, actor, target, attack, index);
      }
    case MoveTo(actor, position) => MoveSound(s, actor, position);
    case EndOfTurn => EndTurnSound(s);
  }

  lemma ContinuesTransitive(a: CombatState, b: CombatState, c: CombatState)
    requires Continues(a, b) && Continues(b, c)
    ensures Continues(a, c)
  {
    forall i | 0 <= i < |a.combatants|
      ensures c.combatants[i] == a.combatants[i].(currentHp := c.combatants[i].currentHp)
      ensures c.combatants[i].currentHp <= a.combatants[i].currentHp
    {
      assert b.combatants[i] == a.combatants[i].(currentHp := b.combatants[i].currentHp);
    }
  }

  /** Over every fight, the state stays sound and continues the one it started from. */
  lemma {:induction false} FightSound(dice: Dice, s: CombatState, cmds: seq<Command>)
    requires Sound(s)
    ensures Sound(Fight(dice, s, cmds)) && Continues(s, Fight(dice, s, cmds))
  {
    if cmds != [] {
      var front, cmd := cmds[..|cmds| - 1], cmds[|cmds| - 1];
      FightSound(dice, s, front);
      var mid := Fight(dice, s, front);
      CommandSound(dice, mid, cmd);
      ContinuesTransitive(s, mid, After(dice, mid, cmd));
    }
  }

  // ---------------------------------------------------------------- the starting state

  lemma {:induction false} StartPositionKeys(enemies: seq<Combatant>, pc: string, id: string)
    ensures id in StartPositions(enemies, pc) <==> id == pc || id in CombatantIds(enemies)
  {
    if enemies != [] {
      var front, last := enemies[..|enemies| - 1], enemies[|enemies| - 1];
      StartPositionKeys(front, pc, id);
      assert CombatantIds(enemies) == CombatantIds(front) + [last.id];
    }
  }

  lemma {:induction false} ForEachKeys<V>(combatants: seq<Combatant>, value: V, id: string)
    ensures id in ForEach(combatants, value) <==> id in CombatantIds(combatants)
  {
    if combatants != [] {
      ForEachKeys(combatants[1..], value, id);
      assert CombatantIds(combatants) == [combatants[0].id] + CombatantIds(combatants[1..]);
    }
  }

  lemma OrderMembers(keys: seq<InitiativeKey>, sorted: seq<InitiativeKey>, combatants: seq<Combatant>, id: string)
    requires |keys| == |combatants| && forall k :: 0 <= k < |keys| ==> keys[k].id == combatants[k].id
    requires Sorting.SameElements(sorted, keys)
    ensures id in Ids(Entries(sorted)) <==> id in CombatantIds(combatants)
  {
    var order := Ids(Entries(sorted));
    if id in order {
      var i :| 0 <= i < |order| && order[i] == id;
      assert sorted[i] in keys;
      var k :| 0 <= k < |keys| && keys[k] == sorted[i];
      assert CombatantIds(combatants)[k] == id;
    }
    if id in CombatantIds(combatants) {
      var k :| 0 <= k < |combatants| && CombatantIds(combatants)[k] == id;
      assert keys[k] in sorted;
      var i :| 0 <= i < |sorted| && sorted[i] == keys[k];
      assert order[i] == id;
    }
  }

  lemma OrderDistinct(keys: seq<InitiativeKey>, sorted: seq<InitiativeKey>, combatants: seq<Combatant>)
    requires |keys| == |combatants| && forall k :: 0 <= k < |keys| ==> keys[k].id == combatants[k].id
    requires DistinctCombatants(combatants) && Sorting.SameElements(sorted, keys)
    requires Sorting.StrictOrder(InitiativeBefore) && Sorting.StrictlySorted(InitiativeBefore, sorted)
    ensures TurnOrder.Distinct(Ids(Entries(sorted)))
  {
    forall i, j | 0 <= i < j < |sorted| ensures sorted[i].id != sorted[j].id {
      assert sorted[i] in keys && sorted[j] in keys;
      var a :| 0 <= a < |keys| && keys[a] == sorted[i];
      var b :| 0 <= b < |keys| && keys[b] == sorted[j];
      assert InitiativeBefore(sorted[i], sorted[j]) && !InitiativeBefore(sorted[i], sorted[i]);
      assert a != b;
    }
  }

  lemma OrderIds(dice: Dice, combatants: seq<Combatant>, index: nat)
    requires DistinctCombatants(combatants)
    ensures var order := Entries(Sorting.Sort(InitiativeBefore, ExpectedKeys(dice, combatants, index)));
            && |order| == |combatants|
            && TurnOrder.Distinct(Ids(order))
            && forall id :: id in Ids(order) <==> id in CombatantIds(combatants)
  {
    var keys := ExpectedKeys(dice, combatants, index);
    var sorted := Sorting.Sort(InitiativeBefore, keys);
    InitiativeBeforeIsStrict();
    KeysDistinguished(dice, combatants, index);
    Sorting.SortStrict(InitiativeBefore, keys);
    Sorting.SortMultiset(InitiativeBefore, keys);
    Sorting.SortElements(InitiativeBefore, keys);
    KeyIds(dice, combatants, index);
    OrderDistinct(keys, sorted, combatants);
    forall id ensures id in Ids(Entries(sorted)) <==> id in CombatantIds(combatants) {
      OrderMembers(keys, sorted, combatants, id);
    }
  }

  lemma KeyIds(dice: Dice, combatants: seq<Combatant>, index: nat)
    ensures forall k :: 0 <= k < |combatants| ==> ExpectedKeys(dice, combatants, index)[k].id == combatants[k].id
  {
  }

  lemma ConsIds(c: Combatant, rest: seq<Combatant>)
    ensures CombatantIds([c] + rest) == [c.id] + CombatantIds(rest)
  {
  }

  lemma StartPositionKey(c: Combatant, enemies: seq<Combatant>, id: string)
    ensures id in StartPositions(enemies, c.id) <==> id in CombatantIds([c] + enemies)
  {
    ConsIds(c, enemies);
    StartPositionKeys(enemies, c.id, id);
  }

  lemma {:induction false} StartPlaces(enemies: seq<Combatant>, pc: string, k: nat)
    requires k < |enemies| && DistinctCombatants(enemies)
    ensures enemies[k].id in StartPositions(enemies, pc)
    ensures StartPositions(enemies, pc)[enemies[k].id] == if k == 0 then Close else Far
  {
    var n := |enemies| - 1;
    if k < n {
      assert enemies[..n][k] == enemies[k];
      StartPlaces(enemies[..n], pc, k);
    }
  }

  lemma {:induction false} StartPlaceOfPc(enemies: seq<Combatant>, pc: string)
    requires forall e :: e in enemies ==> e.id != pc
    ensures pc in StartPositions(enemies, pc) && StartPositions(enemies, pc)[pc] == Near
  {
    if enemies != [] {
      var n := |enemies| - 1;
      assert enemies[n] in enemies && forall e :: e in enemies[..n] ==> e in enemies;
      StartPlaceOfPc(enemies[..n], pc);
    }
  }

  /** The character starts near, the first enemy close and the others far, each with three actions and a reaction. */
  lemma StartPlacing(sheet: Sheet, enemies: seq<Combatant>, order: seq<InitiativeEntry>, k: nat, id: string)
    requires order != [] && DistinctCombatants([sheet.body] + enemies) && k < |enemies|
    ensures var s := StartState(sheet, enemies, order);
            && sheet.body.id in s.positions && s.positions[sheet.body.id] == Near
            && enemies[k].id in s.positions && s.positions[enemies[k].id] == (if k == 0 then Close else Far)
            && (id in s.actions ==> s.actions[id] == 3) && (id in s.reactions ==> s.reactions[id])
  {
    var all := [sheet.body] + enemies;
    assert all[0] == sheet.body;
    forall i | 0 <= i < |enemies| ensures enemies[i].id != sheet.body.id { assert all[i + 1] == enemies[i]; }
    forall i, j | 0 <= i < j < |enemies| ensures enemies[i].id != enemies[j].id {
      assert all[i + 1] == enemies[i] && all[j + 1] == enemies[j];
    }
    StartPlaces(enemies, sheet.body.id, k);
    StartPlaceOfPc(enemies, sheet.body.id);
  }

  lemma StartKeys(sheet: Sheet, enemies: seq<Combatant>, order: seq<InitiativeEntry>)
    requires order != []
    ensures var s := StartState(sheet, enemies, order);
            && (forall id :: id in s.positions <==> id in CombatantIds(s.combatants))
            && (forall id :: id in s.actions <==> id in CombatantIds(s.combatants))
  {
    var s := StartState(sheet, enemies, order);
    forall id ensures id in s.positions <==> id in CombatantIds(s.combatants) {
      StartPositionKey(sheet.body, enemies, id);
    }
    forall id ensures id in s.actions <==> id in CombatantIds(s.combatants) { ForEachKeys(s.combatants, 3, id); }
  }

  lemma StartStateSound(sheet: Sheet, enemies: seq<Combatant>, order: seq<InitiativeEntry>)
    requires order != [] && DistinctCombatants([sheet.body] + enemies)
    requires ValidHp(sheet.body) && forall e :: e in enemies ==> ValidHp(e)
    requires TurnOrder.Distinct(Ids(order))
    requires forall id :: id in Ids(order) <==> id in CombatantIds([sheet.body] + enemies)
    ensures Sound(StartState(sheet, enemies, order))
  {
    var s := StartState(sheet, enemies, order);
    StartKeys(sheet, enemies, order);
    assert Ids(order)[0] == s.active;
  }

  /** An encounter of distinct, valid combatants starts sound, in round 1, with the first of the order. */
  lemma StartSound(dice: Dice, sheet: Sheet, enemies: seq<Combatant>, index: nat)
    requires DistinctCombatants([sheet.body] + enemies) && |enemies| <= 2
    requires ValidHp(sheet.body) && forall e :: e in enemies ==> ValidHp(e)
    ensures StartEncounter(dice, sheet, enemies, index).Ok?
    ensures var s := StartEncounter(dice, sheet, enemies, index).value.0;
            && Sound(s) && s.combatants == [sheet.body] + enemies
            && s.order != [] && s.active == s.order[0].id && s.round == 1
  {
    var combatants := [sheet.body] + enemies;
    EncounterStarts(dice, sheet, enemies, index);
    OrderIds(dice, combatants, index);
    StartStateSound(sheet, enemies, Entries(Sorting.Sort(InitiativeBefore, ExpectedKeys(dice, combatants, index))));
  }

  // ---------------------------------------------------------------- initiative, entry by entry

  /** The higher total goes first, then the better perception, then the smaller id. */
  predicate GoesFirst(a: Combatant, total: int, b: Combatant, other: int) {
    || total > other
    || (total == other && a.perception > b.perception)
    || (total == other && a.perception == b.perception && Text.Less(a.id, b.id))
  }

  lemma KeyOfEntry(
      dice: Dice, combatants: seq<Combatant>, index: nat, sorted: seq<InitiativeKey>, i: nat, a: nat)
    requires DistinctCombatants(combatants) && a < |combatants| && i < |sorted| && sorted[i].id == combatants[a].id
    requires Sorting.SameElements(sorted, ExpectedKeys(dice, combatants, index))
    ensures sorted[i] == ExpectedKey(dice, combatants, a, index)
  {
    var keys := ExpectedKeys(dice, combatants, index);
    assert sorted[i] in keys;
    var k :| 0 <= k < |keys| && keys[k] == sorted[i];
    assert keys[k].id == combatants[k].id;
  }

  lemma KeysInOrder(dice: Dice, all: seq<Combatant>, index: nat)
    requires DistinctCombatants(all)
    ensures var keys := ExpectedKeys(dice, all, index);
            var sorted := Sorting.Sort(InitiativeBefore, keys);
            |sorted| == |all| && Sorting.SameElements(sorted, keys) && Sorting.StrictlySorted(InitiativeBefore, sorted)
  {
    var keys := ExpectedKeys(dice, all, index);
    InitiativeBeforeIsStrict();
    KeysDistinguished(dice, all, index);
    Sorting.SortStrict(InitiativeBefore, keys);
    Sorting.SortMultiset(InitiativeBefore, keys);
    Sorting.SortElements(InitiativeBefore, keys);
  }

  /** Two places of the sorted keys. */
  lemma SortedInitiative(
      dice: Dice, all: seq<Combatant>, index: nat, sorted: seq<InitiativeKey>, i: nat, j: nat, a: nat, b: nat)
    requires DistinctCombatants(all) && a < |all| && b < |all| && i < j < |sorted|
    requires Sorting.SameElements(sorted, ExpectedKeys(dice, all, index))
    requires Sorting.StrictlySorted(InitiativeBefore, sorted)
    ensures sorted[i].total >= sorted[j].total
    ensures sorted[i].id == all[a].id ==> sorted[i].total == RollInitiative(dice, all, index)[a].roll.total
    ensures sorted[i].id == all[a].id && sorted[j].id == all[b].id ==>
              GoesFirst(all[a], sorted[i].total, all[b], sorted[j].total)
  {
    assert InitiativeBefore(sorted[i], sorted[j]);
    if sorted[i].id == all[a].id { KeyOfEntry(dice, all, index, sorted, i, a); }
    if sorted[j].id == all[b].id { KeyOfEntry(dice, all, index, sorted, j, b); }
  }

  /** The order of an encounter names every combatant with its total, in this order. */
  lemma InitiativeOrder(dice: Dice, sheet: Sheet, enemies: seq<Combatant>, index: nat, i: nat, j: nat, a: nat, b: nat)
    requires DistinctCombatants([sheet.body] + enemies) && |enemies| <= 2
    requires i < j <= |enemies| && a <= |enemies| && b <= |enemies|
    requires StartEncounter(dice, sheet, enemies, index).Ok?
    ensures var (s, checks) := StartEncounter(dice, sheet, enemies, index).value;
            var all := [sheet.body] + enemies;
            && |s.order| == |checks| == |all|
            && (s.order[i].id == all[a].id ==> s.order[i].initiative == checks[a].roll.total)
            && (s.order[i].id == all[a].id && s.order[j].id == all[b].id ==>
                  GoesFirst(all[a], s.order[i].initiative, all[b], s.order[j].initiative))
            && s.order[i].initiative >= s.order[j].initiative && s.order[0].initiative >= s.order[j].initiative
            && s.active == s.order[0].id
  {
    var all := [sheet.body] + enemies;
    var sorted := Sorting.Sort(InitiativeBefore, ExpectedKeys(dice, all, index));
    EncounterStarts(dice, sheet, enemies, index);
    KeysInOrder(dice, all, index);
    SortedInitiative(dice, all, index, sorted, i, j, a, b);
    SortedInitiative(dice, all, index, sorted, 0, j, a, b);
  }

  /** Each combatant rolls a d20 and adds its perception; the character's roll is a check against 10. */
  lemma InitiativeRolls(dice: Dice, sheet: Sheet, enemies: seq<Combatant>, index: nat, k: nat)
    requires k <= |enemies| && StartEncounter(dice, sheet, enemies, index).Ok?
    ensures var checks, all := StartEncounter(dice, sheet, enemies, index).value.1, [sheet.body] + enemies;
            && |checks| == |all|
            && var roll := checks[k].roll;
               && roll.sides == 20 && 1 <= roll.natural <= 20 && roll.modifier == all[k].perception
               && roll.total == roll.natural + all[k].perception
               && roll.dc == (if k == 0 then Some(10) else None)
               && roll.rollId == RollId(if k == 0 then "perception" else "initiative", all[k].id, index + k)
  {
  }

  /** Where everyone starts, with three actions and a reaction each, in the first round. */
  lemma EncounterState(dice: Dice, sheet: Sheet, enemies: seq<Combatant>, index: nat, k: nat)
    requires DistinctCombatants([sheet.body] + enemies) && k < |enemies| <= 2
    requires ValidHp(sheet.body) && forall e :: e in enemies ==> ValidHp(e)
    ensures StartEncounter(dice, sheet, enemies, index).Ok?
    ensures var s := StartEncounter(dice, sheet, enemies, index).value.0;
            && s.round == 1 && s.combatants == [sheet.body] + enemies
            && sheet.body.id in s.positions && s.positions[sheet.body.id] == Near
            && enemies[k].id in s.positions && s.positions[enemies[k].id] == (if k == 0 then Close else Far)
            && enemies[k].id in s.actions && sheet.body.id in s.actions
            && (forall id :: id in s.actions ==> s.actions[id] == 3)
            && (forall id :: id in s.reactions ==> s.reactions[id])
            && enemies[k].id in s.reactions && sheet.body.id in s.reactions
  {
    StartSound(dice, sheet, enemies, index);
    var s := StartEncounter(dice, sheet, enemies, index).value.0;
    var all := [sheet.body] + enemies;
    StartPlacing(sheet, enemies, s.order, k, sheet.body.id);
    assert CombatantIds(all)[0] == sheet.body.id && CombatantIds(all)[k + 1] == enemies[k].id;
    ForEachKeys(all, true, sheet.body.id);
    ForEachKeys(all, true, enemies[k].id);
  }

  // ---------------------------------------------------------------- one action, field by field

  lemma {:induction false} FoundIs(combatants: seq<Combatant>, c: Combatant)
    requires DistinctCombatants(combatants) && c in combatants
    ensures FindCombatant(combatants, c.id) == Some(c)
  {
    if combatants[0] != c {
      assert DistinctCombatants(combatants[1..]);
      var i :| 0 <= i < |combatants| && combatants[i] == c;
      assert combatants[1..][i - 1] == c;
      assert combatants[0].id != combatants[i].id;
      FoundIs(combatants[1..], c);
    }
  }

  lemma {:induction false} FirstAttack(attacks: seq<Attack>, k: nat)
    requires k < |attacks| && forall m :: 0 <= m < k ==> attacks[m].id != attacks[k].id
    ensures FindAttack(attacks, attacks[k].id) == Some(attacks[k])
  {
    if k > 0 {
      assert attacks[1..][k - 1] == attacks[k];
      forall m | 0 <= m < k - 1 ensures attacks[1..][m].id != attacks[1..][k - 1].id {
        assert attacks[1..][m] == attacks[m + 1];
      }
      FirstAttack(attacks[1..], k - 1);
    }
  }

  /** The actor with its attack, the first of that id, and the target, are in the fight. */
  ghost predicate Faces(s: CombatState, a: Combatant, t: Combatant, k: nat) {
    && a in s.combatants && t in s.combatants && k < |a.attacks|
    && forall m :: 0 <= m < k ==> a.attacks[m].id != a.attacks[k].id
  }

  /** The actor has an action left, and the target is in reach: an attack without a range needs it close. */
  ghost predicate MayStrike(s: CombatState, a: Combatant, t: Combatant, attack: Attack) {
    && a.id in s.actions && s.actions[a.id] > 0 && t.id in s.positions
    && (attack.range == None ==> s.positions[t.id] == Close)
  }

  predicate Supported(damage: string) {
    Text.StartsWith(damage, "1d8+4 ") || Text.StartsWith(damage, "1d6 ")
  }

  /** A strike that resolves was allowed; an allowed one resolves when its damage can be rolled. */
  lemma StrikeAllowed(dice: Dice, s: CombatState, a: Combatant, t: Combatant, k: nat, index: nat)
    requires DistinctCombatants(s.combatants) && Faces(s, a, t, k)
    ensures var attack := a.attacks[k];
            var r := ResolveStrike(dice, s, a.id, t.id, attack.id, index);
            && (r.Ok? ==> MayStrike(s, a, t, attack))
            && (MayStrike(s, a, t, attack) && Supported(attack.damage) ==> r.Ok?)
  {
    FoundIs(s.combatants, a);
    FoundIs(s.combatants, t);
    FirstAttack(a.attacks, k);
    if MayStrike(s, a, t, a.attacks[k]) { DamagePositive(dice, a.id, a.attacks[k], index); }
  }

  lemma UnknownsCannotStrike(dice: Dice, s: CombatState, actor: string, target: string, attackId: string, index: nat)
    requires ResolveStrike(dice, s, actor, target, attackId, index).Ok?
    ensures exists a, t :: a in s.combatants && a.id == actor && t in s.combatants && t.id == target
  {
    var a, t := FindCombatant(s.combatants, actor).value, FindCombatant(s.combatants, target).value;
    assert a in s.combatants && t in s.combatants;
  }

  /** The attack roll: against the armour class, two more behind cover for an attack with a range. */
  lemma AttackRoll(dice: Dice, s: CombatState, a: Combatant, t: Combatant, k: nat, index: nat)
    requires DistinctCombatants(s.combatants) && Faces(s, a, t, k)
    requires ResolveStrike(dice, s, a.id, t.id, a.attacks[k].id, index).Ok?
    ensures var attack, r := a.attacks[k], ResolveStrike(dice, s, a.id, t.id, a.attacks[k].id, index).value;
            var roll, covered := r.check.roll, attack.range.Some? && s.positions[t.id] == BehindCover;
            && t.id in s.positions
            && roll.sides == 20 && 1 <= roll.natural <= 20 && roll.modifier == attack.modifier
            && roll.total == roll.natural + attack.modifier
            && roll.dc == Some(t.armorClass + if covered then 2 else 0)
            && roll.rollId == RollId("attack_" + attack.id, a.id, index)
            && ComputeDegree(roll.natural, roll.total, roll.dc.value) == Ok(r.check.degree)
  {
    FoundIs(s.combatants, a);
    FoundIs(s.combatants, t);
    FirstAttack(a.attacks, k);
  }

  /** The damage roll of a hit: a d8 and four, or a d6, as the attack says; a miss rolls none. */
  lemma DamageRolled(dice: Dice, s: CombatState, a: Combatant, t: Combatant, k: nat, index: nat)
    requires DistinctCombatants(s.combatants) && Faces(s, a, t, k)
    requires ResolveStrike(dice, s, a.id, t.id, a.attacks[k].id, index).Ok?
    ensures var attack, r := a.attacks[k], ResolveStrike(dice, s, a.id, t.id, a.attacks[k].id, index).value;
            && (r.damage.Some? <==> r.check.degree == Success || r.check.degree == CriticalSuccess)
            && (r.damage.Some? ==>
                  && Supported(attack.damage)
                  && var eight, roll := Text.StartsWith(attack.damage, "1d8+4 "), r.damage.value;
                     && roll.sides == (if eight then 8 else 6) && roll.modifier == (if eight then 4 else 0)
                     && 1 <= roll.natural <= roll.sides && roll.total == roll.natural + roll.modifier
                     && roll.rollId == RollId("damage_" + attack.id, a.id, index))
  {
    FoundIs(s.combatants, a);
    FoundIs(s.combatants, t);
    FirstAttack(a.attacks, k);
    StrikeOutcome(dice, s, a.id, t.id, a.attacks[k].id, index);
  }

  lemma StruckStateIs(s: CombatState, a: Combatant, t: Combatant, left: int)
    requires DistinctCombatants(s.combatants) && t in s.combatants && a.id in s.actions
    ensures var after := StruckState(s, a.id, t, left);
            && |after.combatants| == |s.combatants|
            && (forall i :: 0 <= i < |s.combatants| ==>
                  after.combatants[i] ==
                  if s.combatants[i].id == t.id then s.combatants[i].(currentHp := left) else s.combatants[i])
            && after == s.(combatants := after.combatants, actions := s.actions[a.id := s.actions[a.id] - 1])
  {
    var j :| 0 <= j < |s.combatants| && s.combatants[j] == t;
    forall i | 0 <= i < |s.combatants| && s.combatants[i].id == t.id ensures s.combatants[i] == t {}
  }

  /** The state after a strike: one action spent, and hit points of the target alone, twice the damage on a critical. */
  lemma StrikeEffect(dice: Dice, s: CombatState, a: Combatant, t: Combatant, k: nat, index: nat)
    requires DistinctCombatants(s.combatants) && Faces(s, a, t, k)
    requires ResolveStrike(dice, s, a.id, t.id, a.attacks[k].id, index).Ok?
    ensures var r := ResolveStrike(dice, s, a.id, t.id, a.attacks[k].id, index).value;
            var taken := match r.damage
                         case Some(roll) => if r.check.degree == CriticalSuccess then 2 * roll.total else roll.total
                         case None => 0;
            var left := if r.damage.None? then t.currentHp else if t.currentHp > taken then t.currentHp - taken else 0;
            && a.id in s.actions && |r.state.combatants| == |s.combatants|
            && (forall i :: 0 <= i < |s.combatants| ==>
                  r.state.combatants[i] ==
                  if s.combatants[i].id == t.id then s.combatants[i].(currentHp := left) else s.combatants[i])
            && r.state == s.(combatants := r.state.combatants, actions := s.actions[a.id := s.actions[a.id] - 1])
  {
    FoundIs(s.combatants, a);
    FoundIs(s.combatants, t);
    StrikeOutcome(dice, s, a.id, t.id, a.attacks[k].id, index);
    StruckStateIs(s, a, t, HpLeft(t, ResolveStrike(dice, s, a.id, t.id, a.attacks[k].id, index).value));
  }

  /** A move goes to another position and spends one action; nothing else changes. */
  lemma MoveEffect(s: CombatState, actor: string, position: Position)
    requires Sound(s)
    ensures var r := Move(s, actor, position);
            && (r.Ok? <==> && (exists c :: c in s.combatants && c.id == actor)
                           && actor in s.positions && s.positions[actor] != position
                           && actor in s.actions && s.actions[actor] > 0)
            && (r.Err? ==> r.error == ValueError)
            && (r.Ok? ==> r.value == s.(positions := s.positions[actor := position],
                                        actions := s.actions[actor := s.actions[actor] - 1]))
  {
    if c :| c in s.combatants && c.id == actor { FoundIs(s.combatants, c); }
    MoveSound(s, actor, position);
  }

  ghost predicate Lives(s: CombatState, id: string) {
    exists c :: c in s.combatants && c.id == id && c.currentHp > 0
  }

  lemma LivesIs(s: CombatState, id: string)
    ensures id in LivingIds(s.combatants) <==> Lives(s, id)
  {
  }

  lemma {:induction false} NoneAlive(ids: seq<string>, living: set<string>, lo: nat, p: nat)
    requires lo <= |ids| && lo <= p < TurnOrder.FirstAlive(ids, living, lo)
    ensures ids[p] !in living
    decreases |ids| - lo
  {
    if lo < p { NoneAlive(ids, living, lo + 1, p); }
  }

  /** The place `p` is passed over when the turn goes from `current` to `next`, around the end if need be. */
  predicate PassedOver(current: nat, next: nat, p: nat) {
    if current < next then current < p < next else p > current || p < next
  }

  /** The next living place is the first one behind the current that lives, around the end. */
  lemma NextIsFirst(ids: seq<string>, living: set<string>, current: nat) returns (next: Option<nat>)
    requires current < |ids|
    ensures next == NextLiving(ids, living, current, 1)
    ensures next.None? ==> forall p :: 0 <= p < |ids| ==> ids[p] !in living
    ensures next.Some? ==> forall p :: 0 <= p < |ids| && PassedOver(current, next.value, p) ==> ids[p] !in living
  {
    TurnOrder.NextLivingIs(ids, living, current, 1);
    next := NextLiving(ids, living, current, 1);
    var ahead, first := TurnOrder.FirstAlive(ids, living, current + 1), TurnOrder.FirstAlive(ids, living, 0);
    forall p | current < p < ahead ensures ids[p] !in living { NoneAlive(ids, living, current + 1, p); }
    forall p | 0 <= p < first ensures ids[p] !in living { NoneAlive(ids, living, 0, p); }
  }

  /**
   Ending a turn: the first one behind the active combatant that lives becomes active with fresh
   actions and reaction, and going around the end of the order is a new round. When none lives,
   nothing changes.
   */
  lemma EndTurnEffect(s: CombatState, current: nat) returns (next: Option<nat>)
    requires TurnOrder.Distinct(Ids(s.order)) && current < |s.order| && s.order[current].id == s.active
    ensures EndTurn(s).Ok?
    ensures next.None? ==> EndTurn(s).value == s && forall p :: 0 <= p < |s.order| ==> !Lives(s, s.order[p].id)
    ensures next.Some? ==>
              && next.value < |s.order| && Lives(s, s.order[next.value].id)
              && (forall p :: 0 <= p < |s.order| && PassedOver(current, next.value, p) ==> !Lives(s, s.order[p].id))
              && var id := s.order[next.value].id;
                 EndTurn(s).value == s.(round := s.round + (if next.value <= current then 1 else 0), active := id,
                                        actions := s.actions[id := 3], reactions := s.reactions[id := true])
  {
    var ids, living := Ids(s.order), LivingIds(s.combatants);
    TurnOrder.IndexOfAt(ids, current);
    next := NextIsFirst(ids, living, current);
    forall p | 0 <= p < |ids| ensures Lives(s, s.order[p].id) <==> ids[p] in living {
      LivesIs(s, ids[p]);
    }
  }

  // ---------------------------------------------------------------- natural rolls

  /** A strike with at least the degree of another and the same damage roll leaves no more hit points. */
  lemma BetterDegreeHurtsMore(target: Combatant, a: Strike, b: Strike)
    requires 0 <= target.currentHp && a.check.degree.Rank() <= b.check.degree.Rank()
    requires a.damage.Some? <==> a.check.degree.Rank() >= 2
    requires b.damage.Some? <==> b.check.degree.Rank() >= 2
    requires a.damage.Some? ==> a.damage == b.damage
    requires b.damage.Some? ==> b.damage.value.total >= 1
    ensures HpLeft(target, b) <= HpLeft(target, a)
  {
  }

  /** A critical hit takes twice what a hit takes with the same roll, and neither goes below zero. */
  lemma CriticalTakesDouble(hp: int, damage: int)
    requires 0 <= hp && 1 <= damage
    ensures var hit, critical := HpAfter(hp, Success, damage), HpAfter(hp, CriticalSuccess, damage);
            && 0 <= critical <= hit <= hp && (hit > 0 ==> hp - hit == damage)
            && (critical > 0 ==> hp - critical == 2 * (hp - hit))
            && (critical == 0 <==> hp <= 2 * damage) && (hit == 0 <==> hp <= damage)
  {
  }

  /** A strike's degree and damage, apart from the state it leaves. */
  ghost predicate Resolves(dice: Dice, actor: string, attack: Attack, dc: int, index: nat, r: Strike) {
    && 1 <= r.check.roll.natural <= 20
    && ComputeDegree(r.check.roll.natural, r.check.roll.natural + attack.modifier, dc) == Ok(r.check.degree)
    && r.damage == (if r.check.degree.Rank() < 2 then None else DamageRoll(dice, actor, attack, index))
    && (r.check.degree.Rank() >= 2 ==> r.damage.Some?)
  }

  lemma StrikeResolves(dice: Dice, s: CombatState, actor: string, target: string, attackId: string, index: nat)
    requires ResolveStrike(dice, s, actor, target, attackId, index).Ok?
    ensures var a, t := FindCombatant(s.combatants, actor), FindCombatant(s.combatants, target);
            && a.Some? && t.Some? && FindAttack(a.value.attacks, attackId).Some? && target in s.positions
            && var attack := FindAttack(a.value.attacks, attackId).value;
               Resolves(dice, actor, attack, StrikeDc(t.value, attack, s.positions[target]), index,
                        ResolveStrike(dice, s, actor, target, attackId, index).value)
  {
    StrikeOutcome(dice, s, actor, target, attackId, index);
  }

  lemma ResolvesMonotone(
      low: Dice, high: Dice, t: Combatant, actor: string, attack: Attack, dc: int, index: nat, a: Strike, b: Strike)
    requires Resolves(low, actor, attack, dc, index, a) && Resolves(high, actor, attack, dc, index, b)
    requires a.check.roll.natural <= b.check.roll.natural && 0 <= t.currentHp
    requires DamageRoll(low, actor, attack, index) == DamageRoll(high, actor, attack, index)
    ensures HpLeft(t, b) <= HpLeft(t, a)
  {
    DegreeMonotone(a.check.roll.natural, b.check.roll.natural, attack.modifier, dc);
    DamagePositive(high, actor, attack, index);
    BetterDegreeHurtsMore(t, a, b);
  }

  /** With the same damage roll, a higher natural attack roll never leaves the target with more hit points. */
  lemma HigherNaturalHurtsMore(
      low: Dice, high: Dice, s: CombatState, actor: string, target: string, attackId: string, index: nat)
    requires Sound(s)
    requires ResolveStrike(low, s, actor, target, attackId, index).Ok?
    requires ResolveStrike(high, s, actor, target, attackId, index).Ok?
    requires ResolveStrike(low, s, actor, target, attackId, index).value.check.roll.natural
             <= ResolveStrike(high, s, actor, target, attackId, index).value.check.roll.natural
    requires forall attack :: DamageRoll(low, actor, attack, index) == DamageRoll(high, actor, attack, index)
    ensures FindCombatant(s.combatants, target).Some?
    ensures HpLeft(FindCombatant(s.combatants, target).value,
                   ResolveStrike(high, s, actor, target, attackId, index).value)
            <= HpLeft(FindCombatant(s.combatants, target).value,
                      ResolveStrike(low, s, actor, target, attackId, index).value)
  {
    StrikeResolves(low, s, actor, target, attackId, index);
    StrikeResolves(high, s, actor, target, attackId, index);
    var c, t := FindCombatant(s.combatants, actor).value, FindCombatant(s.combatants, target).value;
    var attack := FindAttack(c.attacks, attackId).value;
    assert ValidHp(t);
    ResolvesMonotone(low, high, t, actor, attack, StrikeDc(t, attack, s.positions[target]), index,
                     ResolveStrike(low, s, actor, target, attackId, index).value,
                     ResolveStrike(high, s, actor, target, attackId, index).value);
  }
}
