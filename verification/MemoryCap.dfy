/** Keeping a memory packet within its token cap. */
module MemoryCap {
  import opened Basics
  import Text

  /** A quarter of the length, rounded up. */
  function EstimateTokens(text: string): nat {
    (|text| + 3) / 4
  }

  function SumTokens(turns: seq<string>): nat {
    if turns == [] then 0 else EstimateTokens(turns[0]) + SumTokens(turns[1..])
  }

  function PacketTokens(summary: string, turns: seq<string>): nat {
    EstimateTokens(summary) + SumTokens(turns)
  }

  const CHUNK: nat := 16

  /** One cut: the last 16 characters, and the white space before them. */
  function Cut(summary: string): (r: string)
    ensures r <= summary && (summary != "" ==> |r| < |summary|)
  {
    Text.StripRight(summary[..if |summary| > CHUNK then |summary| - CHUNK else 0])
  }

  /** As many cuts as it takes for the summary alone to fit. */
  function CutToFit(summary: string, cap: int): (r: string)
    ensures r <= summary
    decreases |summary|
  {
    if EstimateTokens(summary) <= cap || summary == "" then summary else CutToFit(Cut(summary), cap)
  }

  /** The number of oldest turns to drop so that the rest fits beside the full summary. */
  function Dropped(summary: string, turns: seq<string>, cap: int): (k: nat)
    ensures k <= |turns|
  {
    if turns == [] || PacketTokens(summary, turns) <= cap then 0 else 1 + Dropped(summary, turns[1..], cap)
  }

  /** Tokens are quarters of a length, rounded up. */
  lemma TokensAreQuarters(text: string)
    ensures 4 * EstimateTokens(text) >= |text| && 4 * EstimateTokens(text) < |text| + 4
  {
  }

  /** A cut takes the last 16 characters and the white space then at the end, and nothing else. */
  lemma CutTakes(summary: string)
    ensures var n, r := if |summary| > 16 then |summary| - 16 else 0, Cut(summary);
            && |r| <= n && r == summary[..|r|] && (r != "" ==> !Text.IsSpace(r[|r| - 1]))
            && forall i :: |r| <= i < n ==> Text.IsSpace(summary[i])
  {
    StripsSpaces(summary[..if |summary| > 16 then |summary| - 16 else 0]);
  }

  lemma {:induction false} StripsSpaces(s: string)
    ensures forall i :: |Text.StripRight(s)| <= i < |s| ==> Text.IsSpace(s[i])
    decreases |s|
  {
    if s != "" && Text.IsSpace(s[|s| - 1]) { StripsSpaces(s[..|s| - 1]); }
  }

  method EnforceCap(summary: string, recentTurns: seq<string>, cap: int)
    returns (boundedSummary: string, boundedTurns: seq<string>)
    ensures boundedTurns == recentTurns[Dropped(summary, recentTurns, cap)..]
    ensures boundedSummary == if boundedTurns == [] then CutToFit(summary, cap) else summary
  {
    boundedTurns, boundedSummary := recentTurns, summary;
    ghost var k := 0;
    while PacketTokens(boundedSummary, boundedTurns) > cap && boundedTurns != []
      invariant k <= |recentTurns| && boundedTurns == recentTurns[k..]
      invariant Dropped(summary, recentTurns, cap) == k + Dropped(summary, boundedTurns, cap)
      decreases |boundedTurns|
    {
      boundedTurns := boundedTurns[1..];
      k := k + 1;
    }
    while PacketTokens(boundedSummary, boundedTurns) > cap && boundedSummary != ""
      invariant boundedTurns != [] ==> boundedSummary == summary && PacketTokens(summary, boundedTurns) <= cap
      invariant boundedTurns == [] ==> CutToFit(boundedSummary, cap) == CutToFit(summary, cap)
      decreases |boundedSummary|
    {
      boundedSummary := Cut(boundedSummary);
    }
  }

  lemma {:induction false} ShorterSuffixIsCheaper(summary: string, turns: seq<string>, k: nat)
    requires k <= |turns|
    ensures PacketTokens(summary, turns[k..]) <= PacketTokens(summary, turns)
  {
    if k > 0 {
      ShorterSuffixIsCheaper(summary, turns[1..], k - 1);
      assert turns[1..][k - 1..] == turns[k..];
    } else {
      assert turns[0..] == turns;
    }
  }

  /**
   The turns kept are the longest suffix that fits beside the full summary: a suffix fits exactly
   when it drops at least as many turns, unless none fits at all.
   */
  lemma {:induction false} KeepsLongestSuffix(summary: string, turns: seq<string>, cap: int, i: nat)
    requires i <= |turns|
    ensures EstimateTokens(summary) <= cap ==>
      (PacketTokens(summary, turns[i..]) <= cap <==> i >= Dropped(summary, turns, cap))
    ensures EstimateTokens(summary) > cap ==> Dropped(summary, turns, cap) == |turns|
  {
    assert turns[0..] == turns;
    ShorterSuffixIsCheaper(summary, turns, i);
    if turns != [] && PacketTokens(summary, turns) > cap {
      if i > 0 {
        KeepsLongestSuffix(summary, turns[1..], cap, i - 1);
        assert turns[1..][i - 1..] == turns[i..];
      } else {
        KeepsLongestSuffix(summary, turns[1..], cap, 0);
      }
    }
  }

  /** Cutting stops at the first summary that fits: the one before it, when there is one, is too long. */
  lemma {:induction false} CutsNoMoreThanNeeded(summary: string, cap: int) returns (previous: string)
    requires cap >= 0
    ensures EstimateTokens(CutToFit(summary, cap)) <= cap
    ensures CutToFit(summary, cap) == summary <==> EstimateTokens(summary) <= cap
    ensures CutToFit(summary, cap) != summary ==>
              previous <= summary && EstimateTokens(previous) > cap && Cut(previous) == CutToFit(summary, cap)
    decreases |summary|
  {
    previous := summary;
    if EstimateTokens(summary) > cap && summary != "" {
      var earlier := CutsNoMoreThanNeeded(Cut(summary), cap);
      if CutToFit(Cut(summary), cap) != Cut(summary) { previous := earlier; }
    }
  }

  /** For every cap the packet fits it, and the summary is shortened exactly when it does not fit alone. */
  lemma FitsEveryCap(summary: string, turns: seq<string>, cap: int)
    requires cap >= 0
    ensures var kept := turns[Dropped(summary, turns, cap)..];
            var shown := if kept == [] then CutToFit(summary, cap) else summary;
            && PacketTokens(shown, kept) <= cap
            && shown <= summary
            && (shown == summary <==> EstimateTokens(summary) <= cap)
            && (shown != summary ==> kept == [])
  {
    var k := Dropped(summary, turns, cap);
    var _ := CutsNoMoreThanNeeded(summary, cap);
    KeepsLongestSuffix(summary, turns, cap, k);
    assert PacketTokens(CutToFit(summary, cap), []) == EstimateTokens(CutToFit(summary, cap));
  }
}
