/** The cyclic turn order: who is active after any number of ended turns. */
module TurnOrder {
  import opened Basics
  import opened Dice
  import opened CombatEngine

  /** How many of the places `lo..hi` hold a living combatant. */
  function Count(ids: seq<string>, living: set<string>, lo: nat, hi: nat): nat
    requires lo <= hi <= |ids|
    decreases hi
  {
    if lo == hi then 0 else Count(ids, living, lo, hi - 1) + if ids[hi - 1] in living then 1 else 0
  }

  /** The first living place at or after `lo`, or the end. */
  function FirstAlive(ids: seq<string>, living: set<string>, lo: nat): (j: nat)
    requires lo <= |ids|
    ensures lo <= j <= |ids|
    ensures j < |ids| ==> ids[j] in living
    decreases |ids| - lo
  {
    if lo == |ids| || ids[lo] in living then lo else FirstAlive(ids, living, lo + 1)
  }

  lemma {:induction false} CountSplit(ids: seq<string>, living: set<string>, lo: nat, mid: nat, hi: nat)
    requires lo <= mid <= hi <= |ids|
    ensures Count(ids, living, lo, hi) == Count(ids, living, lo, mid) + Count(ids, living, mid, hi)
    decreases hi
  {
    if mid < hi { CountSplit(ids, living, lo, mid, hi - 1); }
  }

  lemma {:induction false} NoneBefore(ids: seq<string>, living: set<string>, lo: nat)
    requires lo <= |ids|
    ensures Count(ids, living, lo, FirstAlive(ids, living, lo)) == 0
    decreases |ids| - lo
  {
    if lo < |ids| && ids[lo] !in living {
      NoneBefore(ids, living, lo + 1);
      CountSplit(ids, living, lo, lo + 1, FirstAlive(ids, living, lo + 1));
    }
  }

  lemma WrapAround(current: nat, offset: nat, n: nat)
    requires current < n && 1 <= offset <= n
    ensures (current + offset) % n == if current + offset < n then current + offset else current + offset - n
  {
    if current + offset >= n {
      assert (current + offset - n) % n == current + offset - n;
      assert (current + offset) % n == (current + offset - n + n) % n == (current + offset - n) % n;
    }
  }

  /**
   The offset search finds the first living place ahead, or wraps to the first one of all, which may
   be the place it starts from; it finds nothing when no one lives.
   */
  lemma {:induction false} NextLivingIs(ids: seq<string>, living: set<string>, current: nat, offset: nat)
    requires current < |ids| && 1 <= offset <= |ids|
    ensures NextLiving(ids, living, current, offset) ==
            if current + offset < |ids| && FirstAlive(ids, living, current + offset) < |ids| then
              Some(FirstAlive(ids, living, current + offset))
            else
              var first := FirstAlive(ids, living, if current + offset < |ids| then 0 else current + offset - |ids|);
              if first <= current then Some(first) else None
    decreases |ids| - offset
  {
    WrapAround(current, offset, |ids|);
    var next := (current + offset) % |ids|;
    if ids[next] !in living && offset < |ids| { NextLivingIs(ids, living, current, offset + 1); }
  }

  /** What the place itself adds to the ranks before it. */
  function Own(ids: seq<string>, living: set<string>, current: nat): nat
    requires current < |ids|
  {
    if ids[current] in living then 1 else 0
  }

  lemma RankAhead(ids: seq<string>, living: set<string>, current: nat)
    requires current < |ids| && FirstAlive(ids, living, current + 1) < |ids|
    ensures var ahead, passed := FirstAlive(ids, living, current + 1),
                                 Count(ids, living, 0, current) + Own(ids, living, current);
            Count(ids, living, 0, ahead) == passed && passed < Count(ids, living, 0, |ids|)
  {
    var ahead := FirstAlive(ids, living, current + 1);
    NoneBefore(ids, living, current + 1);
    CountSplit(ids, living, 0, current + 1, ahead);
    CountSplit(ids, living, 0, ahead + 1, |ids|);
  }

  lemma RankWraps(ids: seq<string>, living: set<string>, current: nat)
    requires current < |ids| && FirstAlive(ids, living, current + 1) == |ids|
    ensures Count(ids, living, 0, current) + Own(ids, living, current) == Count(ids, living, 0, |ids|)
    ensures var first := FirstAlive(ids, living, 0);
            Count(ids, living, 0, first) == 0 && (first <= current <==> Count(ids, living, 0, |ids|) > 0)
  {
    var first := FirstAlive(ids, living, 0);
    NoneBefore(ids, living, 0);
    NoneBefore(ids, living, current + 1);
    CountSplit(ids, living, 0, current + 1, |ids|);
    if first > current { CountSplit(ids, living, 0, current + 1, first); }
    if first <= current { CountSplit(ids, living, 0, first + 1, |ids|); }
  }

  /**
   Ending a turn moves to the next living rank, and wraps exactly after the last one. A dead
   combatant has the rank of the living one behind it, so its turn passes to that rank.
   */
  lemma NextRank(ids: seq<string>, living: set<string>, current: nat)
    requires current < |ids|
    ensures var next := NextLiving(ids, living, current, 1);
            var passed := Count(ids, living, 0, current) + Own(ids, living, current);
            var total := Count(ids, living, 0, |ids|);
            && passed <= total && (next.Some? <==> total > 0)
            && (next.Some? ==>
                  && Count(ids, living, 0, next.value) == (if passed < total then passed else 0)
                  && (next.value <= current <==> passed == total))
  {
    NextLivingIs(ids, living, current, 1);
    if FirstAlive(ids, living, current + 1) < |ids| {
      RankAhead(ids, living, current);
    } else {
      RankWraps(ids, living, current);
    }
  }

  /** `k` turns ended one after the other. */
  function EndTurns(s: CombatState, k: nat): Result<CombatState, Error> {
    if k == 0 then Ok(s)
    else match EndTurns(s, k - 1) case Ok(r) => EndTurn(r) case Err(e) => Err(e)
  }

  predicate Distinct(ids: seq<string>) {
    forall i, j :: 0 <= i < j < |ids| ==> ids[i] != ids[j]
  }

  /** The order names each combatant once, and the active one, which may have been killed since. */
  predicate Placed(s: CombatState) {
    Distinct(Ids(s.order)) && s.active in Ids(s.order)
  }

  /** The active combatant lives. */
  predicate Ready(s: CombatState) {
    Placed(s) && s.active in LivingIds(s.combatants)
  }

  function Rank(s: CombatState): nat
    requires s.active in Ids(s.order)
  {
    Count(Ids(s.order), LivingIds(s.combatants), 0, IndexOf(Ids(s.order), s.active).value)
  }

  /** The number of living combatants in the order. */
  function Total(s: CombatState): nat {
    Count(Ids(s.order), LivingIds(s.combatants), 0, |s.order|)
  }

  lemma IndexOfAt(ids: seq<string>, i: nat)
    requires Distinct(ids) && i < |ids|
    ensures IndexOf(ids, ids[i]) == Some(i)
  {
  }

  /**
   A turn that ends, whether its combatant lives or not, passes to the next living rank, and counts a
   round exactly when no living rank is left ahead. Without any living one nothing changes.
   */
  lemma EndTurnPasses(s: CombatState)
    requires Placed(s)
    ensures EndTurn(s).Ok?
    ensures Total(s) == 0 ==> EndTurn(s).value == s
    ensures var r, passed := EndTurn(s).value, Rank(s) + if Ready(s) then 1 else 0;
            && passed <= Total(s)
            && (Total(s) > 0 ==>
                  && Ready(r) && r.order == s.order && r.combatants == s.combatants && r.positions == s.positions
                  && Rank(r) == (if passed < Total(s) then passed else 0)
                  && r.round == s.round + (if passed == Total(s) then 1 else 0)
                  && r.actions == s.actions[r.active := 3] && r.reactions == s.reactions[r.active := true])
  {
    var ids, living := Ids(s.order), LivingIds(s.combatants);
    var current := IndexOf(ids, s.active).value;
    NextRank(ids, living, current);
    var next := NextLiving(ids, living, current, 1);
    if next.Some? { IndexOfAt(ids, next.value); }
  }

  lemma EndTurnStep(s: CombatState)
    requires Ready(s)
    ensures Rank(s) < Total(s)
    ensures EndTurn(s).Ok?
    ensures var r := EndTurn(s).value;
            && Ready(r) && r.order == s.order && r.combatants == s.combatants && r.positions == s.positions
            && Rank(r) == (if Rank(s) + 1 < Total(s) then Rank(s) + 1 else 0)
            && r.round == s.round + (if Rank(s) + 1 == Total(s) then 1 else 0)
            && r.actions == s.actions[r.active := 3] && r.reactions == s.reactions[r.active := true]
  {
    EndTurnPasses(s);
  }

  /** The turn order seen from outside: how many take part, whose place it is, and the round. */
  datatype Clock = Clock(total: nat, rank: nat, round: int)

  function ClockOf(s: CombatState): Clock
    requires Ready(s)
  {
    Clock(Total(s), Rank(s), s.round)
  }

  function Tick(c: Clock): Clock {
    if c.rank + 1 < c.total then c.(rank := c.rank + 1) else c.(rank := 0, round := c.round + 1)
  }

  function Ticks(c: Clock, k: nat): Clock {
    if k == 0 then c else Tick(Ticks(c, k - 1))
  }

  /** `k` ticks move `k` places ahead, where each wrap past the last place is one round. */
  lemma {:induction false} TicksAre(c: Clock, k: nat)
    requires c.rank < c.total
    ensures var d := Ticks(c, k);
            && d.total == c.total && d.rank < c.total && d.round >= c.round
            && d.rank + c.total * (d.round - c.round) == c.rank + k
    decreases k
  {
    if k > 0 {
      TicksAre(c, k - 1);
      var d := Ticks(c, k - 1);
      assert c.total * (d.round + 1 - c.round) == c.total * (d.round - c.round) + c.total;
    }
  }

  lemma SmallQuotient(total: nat, rank: nat, rounds: nat, x: int)
    requires rank < total && rank + total * rounds == x < 2 * total
    ensures rounds == (if x < total then 0 else 1) && rank == (if x < total then x else x - total)
  {
    if rounds > 0 {
      assert total * rounds == total + total * (rounds - 1);
      assert rounds - 1 > 0 ==> total * (rounds - 1) >= total;
    }
  }

  lemma TicksWithin(c: Clock, k: nat)
    requires c.rank < c.total && k <= c.total
    ensures Ticks(c, k) == if c.rank + k < c.total then c.(rank := c.rank + k)
                           else c.(rank := c.rank + k - c.total, round := c.round + 1)
  {
    var d := Ticks(c, k);
    TicksAre(c, k);
    SmallQuotient(c.total, d.rank, d.round - c.round, c.rank + k);
  }

  lemma StepTicks(s: CombatState)
    requires Ready(s)
    ensures EndTurn(s).Ok? && Ready(EndTurn(s).value) && ClockOf(EndTurn(s).value) == Tick(ClockOf(s))
    ensures EndTurn(s).value.order == s.order && EndTurn(s).value.combatants == s.combatants
    ensures Rank(s) < Total(s)
  {
    EndTurnStep(s);
  }

  lemma {:induction false} EndTurnsTick(s: CombatState, k: nat)
    requires Ready(s)
    ensures EndTurns(s, k).Ok? && Ready(EndTurns(s, k).value) && ClockOf(EndTurns(s, k).value) == Ticks(ClockOf(s), k)
    ensures EndTurns(s, k).value.order == s.order && EndTurns(s, k).value.combatants == s.combatants
    decreases k
  {
    if k > 0 {
      EndTurnsTick(s, k - 1);
      StepTicks(EndTurns(s, k - 1).value);
    }
  }

  /**
   Round robin: with hit points unchanged, `k` ended turns advance the active combatant by `k`
   living ranks, and every wrap past the last rank is one more round.
   */
  lemma RoundRobin(s: CombatState, k: nat)
    requires Ready(s)
    ensures EndTurns(s, k).Ok?
    ensures var r := EndTurns(s, k).value;
            && Ready(r) && r.order == s.order && r.combatants == s.combatants
            && Rank(r) < Total(s) && r.round >= s.round
            && Rank(r) + Total(s) * (r.round - s.round) == Rank(s) + k
  {
    StepTicks(s);
    EndTurnsTick(s, k);
    TicksAre(ClockOf(s), k);
  }

  lemma {:induction false} EndTurnsFirst(s: CombatState, k: nat)
    requires EndTurn(s).Ok?
    ensures EndTurns(s, k + 1) == EndTurns(EndTurn(s).value, k)
    decreases k
  {
    if k > 0 {
      EndTurnsFirst(s, k - 1);
    } else {
      assert EndTurns(s, 0) == Ok(s);
    }
  }

  lemma PassesToReady(s: CombatState)
    requires Placed(s) && Total(s) > 0
    ensures EndTurn(s).Ok? && Ready(EndTurn(s).value)
  {
    EndTurnPasses(s);
  }

  /**
   From any combatant of the order: the turn of one that was killed passes to the living rank behind
   it, and from there the later turns go round as the other lemmas say.
   */
  lemma TurnsFromAnyone(s: CombatState, k: nat)
    requires Placed(s) && Total(s) > 0
    ensures EndTurn(s).Ok? && Ready(EndTurn(s).value)
    ensures EndTurns(s, k + 1).Ok? && EndTurns(s, k + 1) == EndTurns(EndTurn(s).value, k)
  {
    PassesToReady(s);
    EndTurnsFirst(s, k);
    EndTurnsTick(EndTurn(s).value, k);
  }

  /** At most one round later: no wrap while the rank fits, one wrap after. */
  lemma WithinRound(s: CombatState, k: nat)
    requires Ready(s) && k <= Total(s)
    ensures Rank(s) < Total(s) && EndTurns(s, k).Ok?
    ensures var r := EndTurns(s, k).value;
            && Ready(r) && r.order == s.order && r.combatants == s.combatants
            && Rank(r) == (if Rank(s) + k < Total(s) then Rank(s) + k else Rank(s) + k - Total(s))
            && r.round == s.round + (if Rank(s) + k < Total(s) then 0 else 1)
  {
    StepTicks(s);
    EndTurnsTick(s, k);
    TicksWithin(ClockOf(s), k);
  }

  /** Living combatants are told apart by their rank. */
  lemma RankInjective(ids: seq<string>, living: set<string>, i: nat, j: nat)
    requires i < j < |ids| && ids[i] in living
    ensures Count(ids, living, 0, i) < Count(ids, living, 0, j)
  {
    CountSplit(ids, living, 0, i + 1, j);
  }

  lemma SameRankSameActive(a: CombatState, b: CombatState)
    requires Ready(a) && Ready(b) && a.order == b.order && a.combatants == b.combatants && Rank(a) == Rank(b)
    ensures a.active == b.active
  {
    var ids, living := Ids(a.order), LivingIds(a.combatants);
    var i, j := IndexOf(ids, a.active).value, IndexOf(ids, b.active).value;
    if i < j { RankInjective(ids, living, i, j); }
    if j < i { RankInjective(ids, living, j, i); }
  }

  function ActiveAfter(s: CombatState, k: nat): string
    requires EndTurns(s, k).Ok?
  {
    EndTurns(s, k).value.active
  }

  /** A full round returns to the starter, one round later. */
  lemma FullRound(s: CombatState)
    requires Ready(s)
    ensures EndTurns(s, Total(s)).Ok?
    ensures EndTurns(s, Total(s)).value.active == s.active
    ensures EndTurns(s, Total(s)).value.round == s.round + 1
  {
    WithinRound(s, Total(s));
    SameRankSameActive(s, EndTurns(s, Total(s)).value);
  }

  /** Within a round no one is active twice, and only living combatants are active. */
  lemma NoOneTwice(s: CombatState, j: nat, k: nat)
    requires Ready(s) && 1 <= j < k <= Total(s)
    ensures EndTurns(s, j).Ok? && EndTurns(s, k).Ok?
    ensures ActiveAfter(s, j) != ActiveAfter(s, k)
    ensures ActiveAfter(s, j) in LivingIds(s.combatants) && ActiveAfter(s, k) in LivingIds(s.combatants)
  {
    WithinRound(s, j);
    WithinRound(s, k);
  }

  /** Within a round every living combatant of the order gets a turn. */
  lemma EveryoneActs(s: CombatState, id: string) returns (k: nat)
    requires Ready(s) && id in Ids(s.order) && id in LivingIds(s.combatants)
    ensures 1 <= k <= Total(s) && EndTurns(s, k).Ok? && ActiveAfter(s, k) == id
  {
    var target := s.(active := id);
    EndTurnStep(s);
    EndTurnStep(target);
    k := if Rank(target) > Rank(s) then Rank(target) - Rank(s) else Rank(target) + Total(s) - Rank(s);
    WithinRound(s, k);
    SameRankSameActive(EndTurns(s, k).value, target);
  }

  lemma {:induction false} CountIsCardinality(ids: seq<string>, living: set<string>, hi: nat)
    requires Distinct(ids) && hi <= |ids|
    ensures Count(ids, living, 0, hi) == |set id | id in ids[..hi] && id in living|
    decreases hi
  {
    var found := set id | id in ids[..hi] && id in living;
    if hi == 0 {
      assert found == {};
    } else {
      var front, last := ids[..hi - 1], ids[hi - 1];
      CountIsCardinality(ids, living, hi - 1);
      var before := set id | id in front && id in living;
      assert ids[..hi] == front + [last];
      assert last !in front;
      assert found == if last in living then before + {last} else before;
    }
  }

  /** When the order names every combatant, a round has as many turns as there are living combatants. */
  lemma TotalIsLiving(s: CombatState)
    requires Distinct(Ids(s.order)) && forall c :: c in s.combatants ==> c.id in Ids(s.order)
    ensures Total(s) == |LivingIds(s.combatants)|
  {
    var ids, living := Ids(s.order), LivingIds(s.combatants);
    CountIsCardinality(ids, living, |ids|);
    assert ids[..|ids|] == ids;
    assert (set id | id in ids && id in living) == living;
  }
}
