/** Seeded dice, their roll ids, and degrees of success. */
module Dice {
  import opened Basics
  import Text

  datatype Error = ValueError | KeyError | IndexError

  datatype Roll = Roll(rollId: string, sides: nat, natural: int, modifier: int, total: int, dc: Option<int>)

  /** The seeds and the hash of a roll's key, taken as an arbitrary number. */
  datatype Dice = Dice(campaignSeed: string, sessionSeed: string, digest: string -> nat)

  function RollId(purpose: string, actor: string, index: nat): string {
    ("roll_" + purpose + "_" + actor) + "_" + Text.Padded(index, 6)
  }

  function Key(dice: Dice, purpose: string, actor: string, index: nat): string {
    dice.campaignSeed + "|" + dice.sessionSeed + "|" + purpose + "|" + actor + "|" + Text.Decimal(index)
  }

  function Natural(dice: Dice, sides: nat, purpose: string, actor: string, index: nat): int
    requires sides > 0
  {
    dice.digest(Key(dice, purpose, actor, index)) % sides + 1
  }

  function RollDie(dice: Dice, sides: nat, purpose: string, actor: string, modifier: int, index: nat, dc: Option<int>)
    : Result<Roll, Error>
  {
    if !(2 <= sides <= 1000) then Err(ValueError)
    else
      var natural := Natural(dice, sides, purpose, actor, index);
      Ok(Roll(RollId(purpose, actor, index), sides, natural, modifier, natural + modifier, dc))
  }

  function RollD20(dice: Dice, purpose: string, actor: string, modifier: int, index: nat, dc: Option<int>): (r: Roll)
    ensures RollDie(dice, 20, purpose, actor, modifier, index, dc) == Ok(r)
    ensures 1 <= r.natural <= 20
  {
    RollDie(dice, 20, purpose, actor, modifier, index, dc).value
  }

  /** A roll stays on its die, and only the number of sides can make it fail. */
  lemma RollInRange(dice: Dice, sides: nat, purpose: string, actor: string, modifier: int, index: nat, dc: Option<int>)
    ensures var r := RollDie(dice, sides, purpose, actor, modifier, index, dc);
            && (r.Ok? <==> 2 <= sides <= 1000)
            && (r.Ok? ==> 1 <= r.value.natural <= sides && r.value.total - r.value.natural == modifier)
  {
  }

  /** The index can be read back from a roll id, whatever the purpose and the actor contain. */
  lemma RollIdIndex(purpose: string, actor: string, index: nat)
    ensures var digits := Text.AfterLast(RollId(purpose, actor, index), '_');
            Text.IsDigits(digits) && Text.Value(digits) == index
  {
    Text.SplitLast("roll_" + purpose + "_" + actor, '_', Text.Padded(index, 6));
    Text.ValueOfPadded(index, 6);
  }

  /** Rolls with different indices have different ids. */
  lemma RollIdsDiffer(purpose: string, actor: string, index: nat, purpose': string, actor': string, index': nat)
    requires index != index'
    ensures RollId(purpose, actor, index) != RollId(purpose', actor', index')
  {
    RollIdIndex(purpose, actor, index);
    RollIdIndex(purpose', actor', index');
  }

  /** The attack and the damage roll of one strike share an index but not an id. */
  lemma AttackAndDamageDiffer(attack: string, actor: string, index: nat, attack': string, actor': string, index': nat)
    ensures RollId("attack_" + attack, actor, index) != RollId("damage_" + attack', actor', index')
  {
    assert RollId("attack_" + attack, actor, index)[5] == 'a';
    assert RollId("damage_" + attack', actor', index')[5] == 'd';
  }

  // ---------------------------------------------------------------- initiative ids

  /** The actor a perception or initiative roll belongs to, read back from its id. */
  function ActorOfRollId(rollId: string): Option<string> {
    if Text.StartsWith(rollId, "roll_perception_") then Some(Text.BeforeLast(rollId[|"roll_perception_"|..], '_'))
    else if Text.StartsWith(rollId, "roll_initiative_") then Some(Text.BeforeLast(rollId[|"roll_initiative_"|..], '_'))
    else None
  }

  lemma RollIdSplits(purpose: string, head: string, actor: string, index: nat)
    requires "roll_" + purpose + "_" == head
    ensures var id := RollId(purpose, actor, index);
            head <= id && id[|head|..] == actor + "_" + Text.Padded(index, 6)
  {
    var digits := Text.Padded(index, 6);
    assert RollId(purpose, actor, index) == head + (actor + "_" + digits);
  }

  /** Reading the actor undoes printing the id, for actors with any number of underscores. */
  lemma ActorRecovered(actor: string, index: nat)
    ensures ActorOfRollId(RollId("perception", actor, index)) == Some(actor)
    ensures ActorOfRollId(RollId("initiative", actor, index)) == Some(actor)
  {
    Text.SplitLast(actor, '_', Text.Padded(index, 6));
    RollIdSplits("perception", "roll_perception_", actor, index);
    RollIdSplits("initiative", "roll_initiative_", actor, index);
    NotPerception(RollId("initiative", actor, index));
  }

  lemma NotPerception(id: string)
    requires "roll_initiative_" <= id
    ensures !("roll_perception_" <= id)
  {
    assert id[5] == "roll_initiative_"[5] == 'i';
    assert "roll_perception_"[5] == 'p';
  }

  // ---------------------------------------------------------------- degrees of success

  datatype Degree = CriticalFailure | Failure | Success | CriticalSuccess {
    function Rank(): nat {
      match this case CriticalFailure => 0 case Failure => 1 case Success => 2 case CriticalSuccess => 3
    }
  }

  function Ladder(rank: nat): Degree
    requires rank < 4
  {
    if rank == 0 then CriticalFailure else if rank == 1 then Failure else if rank == 2 then Success else CriticalSuccess
  }

  function ComputeDegree(natural: int, total: int, dc: int): Result<Degree, Error> {
    if !(1 <= natural <= 20) then Err(ValueError)
    else
      var base := if total >= dc + 10 then 3 else if total >= dc then 2 else if total <= dc - 10 then 0 else 1;
      Ok(Ladder(if natural == 20 then (if base < 3 then base + 1 else 3)
                else if natural == 1 then (if base > 0 then base - 1 else 0)
                else base))
  }

  /**
   What each degree means: success reaches the difficulty and a critical one beats it by ten, a
   critical failure misses it by ten; a natural 20 is one step better and a natural 1 one step worse.
   */
  lemma DegreeMeans(natural: int, total: int, dc: int)
    ensures var r := ComputeDegree(natural, total, dc);
            && (r.Ok? <==> 1 <= natural <= 20)
            && (1 < natural < 20 ==>
                  && (r.value.Rank() >= 2 <==> total >= dc)
                  && (r.value.CriticalSuccess? <==> total >= dc + 10)
                  && (r.value.CriticalFailure? <==> total <= dc - 10))
            && (natural == 20 ==>
                  && (r.value.CriticalSuccess? <==> total >= dc)
                  && (r.value.Failure? <==> total <= dc - 10) && !r.value.CriticalFailure?)
            && (natural == 1 ==>
                  && (r.value.CriticalFailure? <==> total < dc)
                  && (r.value.Success? <==> total >= dc + 10) && !r.value.CriticalSuccess?)
  {
  }

  /** A higher natural roll with the same modifier never gives a lower degree. */
  lemma DegreeMonotone(low: int, high: int, modifier: int, dc: int)
    requires 1 <= low <= high <= 20
    ensures var a, b := ComputeDegree(low, low + modifier, dc), ComputeDegree(high, high + modifier, dc);
            a.Ok? && b.Ok? && a.value.Rank() <= b.value.Rank()
  {
  }
}
