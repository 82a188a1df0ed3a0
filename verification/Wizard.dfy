/** The onboarding interview: a phase machine with edits that take effect whole or not at all. */
module Wizard {
  import opened Basics
  import Text

  // ---------------------------------------------------------------- values

  datatype Num = Finite(value: real) | PosInf | NegInf | NaN

  datatype Key = Name(name: string) | OtherKey(code: int)

  /** A raw answer or a stored draft value. */
  datatype Value =
    | Null
    | Bool(flag: bool)
    | Int(number: int)
    | Float(num: Num)
    | Str(text: string)
    | List(items: seq<Value>)
    | Dict(entries: seq<Entry>)
    | Other(code: int)

  /** Dictionaries keep their entries in insertion order, with distinct keys. */
  datatype Entry = Entry(key: Key, value: Value)

  /**
   Printing any value, reading a number from text, lower case, and whether the model library
   accepts NaN as a non-negative number.
   */
  datatype Host = Host(
    show: Value -> string, parseFloat: string -> Option<Num>, lower: string -> string, nanAllowed: bool)

  datatype Slot =
    | Genre | Tone | Touchstones | PillarWeights | Pacing | CombatStyle | DiceUx | HardLimits | SoftLimits
    | Preferences | CampaignLength | DeathPolicy | PerSessionUsd | HardStop | CharacterMode

  datatype Kind =
    | MultiText(required: bool) | Choice(choices: seq<string>) | PillarPoints | SoftLimitMap | FloatField | BoolField

  /** Answers by the slot their question fills, and the answer to the review. */
  datatype Answers = Answers(given: map<Slot, Value>, confirmed: Value)

  datatype Phase =
    | WelcomePhase | TonePhase | PillarsPhase | CombatDicePhase | ContentPolicyPhase | LengthDeathPhase
    | BudgetPhase | CharacterModePhase | ReviewPhase | DonePhase
  {
    function Index(): nat {
      match this
      case WelcomePhase => 0
      case TonePhase => 1
      case PillarsPhase => 2
      case CombatDicePhase => 3
      case ContentPolicyPhase => 4
      case LengthDeathPhase => 5
      case BudgetPhase => 6
      case CharacterModePhase => 7
      case ReviewPhase => 8
      case DonePhase => 9
    }
  }

  function NextPhase(p: Phase): Phase
    requires !p.DonePhase?
  {
    match p
    case WelcomePhase => TonePhase
    case TonePhase => PillarsPhase
    case PillarsPhase => CombatDicePhase
    case CombatDicePhase => ContentPolicyPhase
    case ContentPolicyPhase => LengthDeathPhase
    case LengthDeathPhase => BudgetPhase
    case BudgetPhase => CharacterModePhase
    case CharacterModePhase => ReviewPhase
    case ReviewPhase => DonePhase
  }

  const PACING := ["slow", "medium", "fast"]
  const COMBAT_STYLES := ["theater_of_mind"]
  const DICE_UX := ["auto", "reveal", "hidden"]
  const LENGTHS := ["one_shot", "arc", "open_ended"]
  const DEATHS := ["hardcore", "heroic_recovery", "retire_and_continue"]
  const MODES := ["guided", "player_led", "pregenerated"]
  const SOFT_ACTIONS := ["fade_to_black", "avoid_detail", "ask_first"]
  const PILLARS := ["combat", "exploration", "social", "puzzle"]

  function KindOf(slot: Slot): Kind {
    match slot
    case Genre => MultiText(true)
    case Tone => MultiText(true)
    case Touchstones => MultiText(true)
    case PillarWeights => PillarPoints
    case Pacing => Choice(PACING)
    case CombatStyle => Choice(COMBAT_STYLES)
    case DiceUx => Choice(DICE_UX)
    case HardLimits => MultiText(false)
    case SoftLimits => SoftLimitMap
    case Preferences => MultiText(false)
    case CampaignLength => Choice(LENGTHS)
    case DeathPolicy => Choice(DEATHS)
    case PerSessionUsd => FloatField
    case HardStop => BoolField
    case CharacterMode => Choice(MODES)
  }

  /** The slots a phase asks for; the review only asks for confirmation. */
  function Fields(p: Phase): seq<Slot> {
    match p
    case WelcomePhase => [Genre]
    case TonePhase => [Tone, Touchstones]
    case PillarsPhase => [PillarWeights, Pacing]
    case CombatDicePhase => [CombatStyle, DiceUx]
    case ContentPolicyPhase => [HardLimits, SoftLimits, Preferences]
    case LengthDeathPhase => [CampaignLength, DeathPolicy]
    case BudgetPhase => [PerSessionUsd, HardStop]
    case CharacterModePhase => [CharacterMode]
    case ReviewPhase => []
    case DonePhase => []
  }

  /** The phase that asks for a slot. */
  function PhaseOf(slot: Slot): Phase {
    match slot
    case Genre => WelcomePhase
    case Tone => TonePhase
    case Touchstones => TonePhase
    case PillarWeights => PillarsPhase
    case Pacing => PillarsPhase
    case CombatStyle => CombatDicePhase
    case DiceUx => CombatDicePhase
    case HardLimits => ContentPolicyPhase
    case SoftLimits => ContentPolicyPhase
    case Preferences => ContentPolicyPhase
    case CampaignLength => LengthDeathPhase
    case DeathPolicy => LengthDeathPhase
    case PerSessionUsd => BudgetPhase
    case HardStop => BudgetPhase
    case CharacterMode => CharacterModePhase
  }

  // ---------------------------------------------------------------- parsers

  function Shown(host: Host, v: Value): string {
    if v.Str? then v.text else host.show(v)
  }

  /** The stripped texts that are not blank. */
  function Texts(host: Host, items: seq<Value>): seq<Value> {
    if items == [] then []
    else
      var t := Text.Strip(Shown(host, items[0]));
      (if t == "" then [] else [Str(t)]) + Texts(host, items[1..])
  }

  function AsStrings(parts: seq<string>): seq<Value> {
    seq(|parts|, i requires 0 <= i < |parts| => Str(parts[i]))
  }

  function ParseMultiText(host: Host, required: bool, raw: Value): Option<Value> {
    var texts :=
      match raw
      case Null => []
      case List(items) => Texts(host, items)
      case Str(text) => Texts(host, AsStrings(Text.Split(text, ',')))
      case _ => Texts(host, [raw]);
    if required && texts == [] then None else Some(List(texts))
  }

  function ParseChoice(host: Host, choices: seq<string>, raw: Value): Option<Value> {
    var value := if raw.Null? then "" else Text.Strip(Shown(host, raw));
    if value in choices then Some(Str(value)) else None
  }

  function Lookup(entries: seq<Entry>, key: Key): Option<Value> {
    if entries == [] then None
    else if entries[0].key == key then Some(entries[0].value)
    else Lookup(entries[1..], key)
  }

  function Keys(entries: seq<Entry>): set<Key> {
    set e | e in entries :: e.key
  }

  const PILLAR_KEYS := {Name("combat"), Name("exploration"), Name("social"), Name("puzzle")}

  /** The points given to a pillar: a non-negative integer, and not a boolean. */
  function Points(entries: seq<Entry>, pillar: string): Option<nat> {
    match Lookup(entries, Name(pillar))
    case Some(Int(n)) => if n >= 0 then Some(n) else None
    case _ => None
  }

  function Weight(pillar: string, points: nat): Entry {
    Entry(Name(pillar), Float(Finite(points as real / 10.0)))
  }

  /** Ten points over exactly the four pillars become weights. */
  function PillarBudget(raw: Value): Option<Value> {
    if !raw.Dict? || Keys(raw.entries) != PILLAR_KEYS then None
    else
      match (Points(raw.entries, PILLARS[0]), Points(raw.entries, PILLARS[1]),
             Points(raw.entries, PILLARS[2]), Points(raw.entries, PILLARS[3]))
      case (Some(a), Some(b), Some(c), Some(d)) =>
        if a + b + c + d == 10 then
          Some(Dict([Weight(PILLARS[0], a), Weight(PILLARS[1], b), Weight(PILLARS[2], c), Weight(PILLARS[3], d)]))
        else None
      case _ => None
  }

  function ParseFloat(host: Host, raw: Value): Option<Value> {
    if raw.Bool? then None
    else match FloatOf(host, raw)
         case Some(num) => if Negative(num) then None else Some(Float(num))
         case None => None
  }

  /** `float(value)`; integers are taken without rounding. */
  function FloatOf(host: Host, v: Value): Option<Num> {
    match v
    case Bool(b) => Some(Finite(if b then 1.0 else 0.0))
    case Int(n) => Some(Finite(n as real))
    case Float(num) => Some(num)
    case Str(text) => host.parseFloat(text)
    case _ => None
  }

  /** Comparing NaN with zero is false. */
  predicate Negative(num: Num) {
    num.NegInf? || (num.Finite? && num.value < 0.0)
  }

  function ParseBool(host: Host, raw: Value): Option<Value> {
    match raw
    case Bool(_) => Some(raw)
    case Str(text) =>
      var word := host.lower(Text.Strip(text));
      if word in ["true", "yes", "y", "1"] then Some(Bool(true))
      else if word in ["false", "no", "n", "0"] then Some(Bool(false))
      else None
    case Int(n) => if n == 0 then Some(Bool(false)) else if n == 1 then Some(Bool(true)) else None
    case _ => None
  }

  predicate GoodSoftLimit(e: Entry) {
    e.key.Name? && Text.Strip(e.key.name) != "" && e.value.Str? && e.value.text in SOFT_ACTIONS
  }

  predicate AllGood(entries: seq<Entry>) {
    forall i :: 0 <= i < |entries| ==> GoodSoftLimit(entries[i])
  }

  /** Setting a key of a dictionary keeps its place, or adds it at the end. */
  function SetKey(entries: seq<Entry>, key: Key, value: Value): seq<Entry> {
    if entries == [] then [Entry(key, value)]
    else if entries[0].key == key then [Entry(key, value)] + entries[1..]
    else [entries[0]] + SetKey(entries[1..], key, value)
  }

  function StrippedLimits(entries: seq<Entry>): seq<Entry>
    requires AllGood(entries)
  {
    if entries == [] then []
    else
      var last := entries[|entries| - 1];
      SetKey(StrippedLimits(entries[..|entries| - 1]), Name(Text.Strip(last.key.name)), last.value)
  }

  function SoftLimitsOf(raw: Value): Option<Value> {
    match raw
    case Null => Some(Dict([]))
    case Dict(entries) =>
      if AllGood(entries) then Some(Dict(StrippedLimits(entries))) else None
    case _ => None
  }

  function ParseAnswer(host: Host, kind: Kind, raw: Value): Option<Value> {
    match kind
    case MultiText(required) => ParseMultiText(host, required, raw)
    case Choice(choices) => ParseChoice(host, choices, raw)
    case PillarPoints => PillarBudget(raw)
    case SoftLimitMap => SoftLimitsOf(raw)
    case FloatField => ParseFloat(host, raw)
    case BoolField => ParseBool(host, raw)
  }

  /** What the loop over the pillars has found: a bad entry, the points so far, and their weights. */
  datatype Tally = Tally(errors: bool, total: nat, weights: seq<Entry>)

  function Counted(t: Tally, entries: seq<Entry>, pillar: string): Tally {
    match Points(entries, pillar)
    case Some(n) => Tally(t.errors, t.total + n, t.weights + [Weight(pillar, n)])
    case None => t.(errors := true)
  }

  function Tallied(entries: seq<Entry>, pillars: seq<string>): Tally {
    if pillars == [] then Tally(false, 0, [])
    else Counted(Tallied(entries, pillars[..|pillars| - 1]), entries, pillars[|pillars| - 1])
  }

  lemma TallyOfFour(entries: seq<Entry>, a: string, b: string, c: string, d: string)
    ensures var t := Tallied(entries, [a, b, c, d]);
            match (Points(entries, a), Points(entries, b), Points(entries, c), Points(entries, d))
            case (Some(k), Some(l), Some(m), Some(n)) =>
              t == Tally(false, k + l + m + n, [Weight(a, k), Weight(b, l), Weight(c, m), Weight(d, n)])
            case _ => t.errors
  {
    assert [a, b, c, d][..3] == [a, b, c] && [a, b, c][..2] == [a, b] && [a, b][..1] == [a] && [a][..0] == [];
    assert Tallied(entries, [a]) == Counted(Tallied(entries, []), entries, a);
    assert Tallied(entries, [a, b]) == Counted(Tallied(entries, [a]), entries, b);
    assert Tallied(entries, [a, b, c]) == Counted(Tallied(entries, [a, b]), entries, c);
  }

  lemma TallyOfPillars(entries: seq<Entry>)
    requires Keys(entries) == PILLAR_KEYS
    ensures var t := Tallied(entries, PILLARS);
            PillarBudget(Dict(entries)) == if t.errors || t.total != 10 then None else Some(Dict(t.weights))
  {
    TallyOfFour(entries, PILLARS[0], PILLARS[1], PILLARS[2], PILLARS[3]);
    assert PILLARS == [PILLARS[0], PILLARS[1], PILLARS[2], PILLARS[3]];
  }

  /** The loop over the four pillars: collects the points, then checks their sum. */
  method ParsePillarBudget(raw: Value) returns (r: Option<Value>)
    ensures r == PillarBudget(raw)
  {
    if !raw.Dict? || Keys(raw.entries) != PILLAR_KEYS { return None; }
    var errors, total: nat, weights := false, 0, [];
    var pillars := PILLARS;
    for i := 0 to |pillars|
      invariant Tally(errors, total, weights) == Tallied(raw.entries, pillars[..i])
    {
      assert pillars[..i + 1][..i] == pillars[..i];
      match Lookup(raw.entries, Name(pillars[i])) {
        case Some(Int(n)) =>
          if n < 0 {
            errors := true;
          } else {
            total := total + n;
            weights := weights + [Weight(pillars[i], n)];
          }
        case _ => errors := true;
      }
    }
    assert pillars[..|pillars|] == pillars;
    TallyOfPillars(raw.entries);
    r := if errors || total != 10 then None else Some(Dict(weights));
  }

  lemma GoodStep(entries: seq<Entry>, i: nat)
    requires i < |entries|
    ensures AllGood(entries[..i + 1]) <==> AllGood(entries[..i]) && GoodSoftLimit(entries[i])
    ensures AllGood(entries[..i + 1]) ==>
              && entries[i].key.Name?
              && StrippedLimits(entries[..i + 1])
                 == SetKey(StrippedLimits(entries[..i]), Name(Text.Strip(entries[i].key.name)), entries[i].value)
  {
    var before, after := entries[..i], entries[..i + 1];
    assert after[..i] == before && after[i] == entries[i];
    forall k | 0 <= k < i ensures before[k] == after[k] {}
    if AllGood(after) { assert GoodSoftLimit(after[i]); }
  }

  /** The loop over the entries: every bad one is an error, and good ones are stored under their stripped key. */
  method ParseSoftLimitMap(raw: Value) returns (r: Option<Value>)
    ensures r == SoftLimitsOf(raw)
  {
    if raw == Null || raw == Dict([]) { return Some(Dict([])); }
    if !raw.Dict? { return None; }
    var errors, validated: seq<Entry> := false, [];
    for i := 0 to |raw.entries|
      invariant !errors <==> AllGood(raw.entries[..i])
      invariant !errors ==> validated == StrippedLimits(raw.entries[..i])
    {
      var e := raw.entries[i];
      GoodStep(raw.entries, i);
      if !e.key.Name? || Text.Strip(e.key.name) == "" { errors := true; continue; }
      if !e.value.Str? || e.value.text !in SOFT_ACTIONS { errors := true; continue; }
      validated := SetKey(validated, Name(Text.Strip(e.key.name)), e.value);
    }
    assert raw.entries[..|raw.entries|] == raw.entries;
    return if errors then None else Some(Dict(validated));
  }

  // ---------------------------------------------------------------- models

  predicate IsStringList(v: Value) {
    v.List? && forall x :: x in v.items ==> x.Str?
  }

  predicate IsChoice(v: Value, choices: seq<string>) {
    v.Str? && v.text in choices
  }

  function Plus(a: Num, b: Num): Num {
    match (a, b)
    case (Finite(x), Finite(y)) => Finite(x + y)
    case (PosInf, NegInf) => NaN
    case (NegInf, PosInf) => NaN
    case (NaN, _) => NaN
    case (_, NaN) => NaN
    case (Finite(_), _) => b
    case _ => a
  }

  function TotalWeight(entries: seq<Entry>): Num {
    if entries == [] then Finite(0.0)
    else
      var v := entries[|entries| - 1].value;
      Plus(TotalWeight(entries[..|entries| - 1]),
           if v.Float? then v.num else if v.Int? then Finite(v.number as real) else NaN)
  }

  /** The total is within 0.01 of one; the comparison lets NaN through. */
  predicate SumsToOne(total: Num) {
    total.NaN? || (total.Finite? && -0.01 <= total.value - 1.0 <= 0.01)
  }

  predicate IsWeights(v: Value) {
    && v.Dict? && Keys(v.entries) == PILLAR_KEYS
    && (forall e :: e in v.entries ==> e.value.Float? || e.value.Int?)
    && SumsToOne(TotalWeight(v.entries))
  }

  predicate IsSoftLimits(v: Value) {
    v.Dict? && forall e :: e in v.entries ==> e.key.Name? && IsChoice(e.value, SOFT_ACTIONS)
  }

  predicate IsBudget(host: Host, v: Value) {
    v.Float? && !Negative(v.num) && (v.num.NaN? ==> host.nanAllowed)
  }

  /** What the models accept in a slot; the content policy reads a missing value as empty. */
  predicate Accepts(host: Host, slot: Slot, v: Value) {
    match KindOf(slot)
    case MultiText(required) => IsStringList(v) || (!required && v.Null?)
    case Choice(choices) => IsChoice(v, choices)
    case PillarPoints => IsWeights(v)
    case SoftLimitMap => IsSoftLimits(v) || v.Null?
    case FloatField => IsBudget(host, v)
    case BoolField => v.Bool?
  }

  type Draft = map<Slot, Value>

  ghost predicate Total(draft: Draft) {
    forall slot: Slot :: slot in draft
  }

  function Get(draft: Draft, slot: Slot): Value {
    if slot in draft then draft[slot] else Null
  }

  datatype Group = ProfileGroup | PolicyGroup | RulesGroup

  predicate IsPolicySlot(slot: Slot) {
    slot.HardLimits? || slot.SoftLimits? || slot.Preferences?
  }

  /** The slots a record is built from. */
  predicate InGroup(group: Group, slot: Slot) {
    match group
    case ProfileGroup => !IsPolicySlot(slot)
    case PolicyGroup => IsPolicySlot(slot)
    case RulesGroup => slot.DiceUx?
  }

  /** The record of a group can be built. */
  predicate GroupValid(host: Host, group: Group, draft: Draft) {
    forall slot: Slot :: InGroup(group, slot) ==> Accepts(host, slot, Get(draft, slot))
  }

  // ---------------------------------------------------------------- edits

  datatype Target = UsdTarget | StopTarget | Direct(group: Group, slot: Slot) | NoTarget

  function ProfileSlot(name: string): Option<Slot> {
    match name
    case "genre" => Some(Genre)
    case "tone" => Some(Tone)
    case "touchstones" => Some(Touchstones)
    case "pillar_weights" => Some(PillarWeights)
    case "pacing" => Some(Pacing)
    case "dice_ux" => Some(DiceUx)
    case "campaign_length" => Some(CampaignLength)
    case "character_mode" => Some(CharacterMode)
    case "death_policy" => Some(DeathPolicy)
    case _ => None
  }

  function PolicySlot(name: string): Option<Slot> {
    match name
    case "hard_limits" => Some(HardLimits)
    case "soft_limits" => Some(SoftLimits)
    case "preferences" => Some(Preferences)
    case _ => None
  }

  function DirectTarget(group: Group, slot: Option<Slot>): Target {
    match slot case Some(s) => Direct(group, s) case None => NoTarget
  }

  /** What a dotted path names; parts behind the field are ignored. */
  function TargetOf(path: string): Target {
    var parts := Text.Split(path, '.');
    if Text.Contains(path, "combat_style") || |parts| < 2 then NoTarget
    else if parts[0] == "profile" then
      if parts[1] == "budget" then
        if |parts| < 3 then NoTarget
        else if parts[2] == "per_session_usd" then UsdTarget
        else if parts[2] == "hard_stop" then StopTarget
        else NoTarget
      else DirectTarget(ProfileGroup, ProfileSlot(parts[1]))
    else if parts[0] == "content_policy" then DirectTarget(PolicyGroup, PolicySlot(parts[1]))
    else if parts[0] == "house_rules" then
      DirectTarget(RulesGroup, if parts[1] == "dice_ux" then Some(DiceUx) else None)
    else NoTarget
  }

  datatype Change = Change(group: Group, slot: Slot, value: Value)

  /** The change an edit tries; a budget is read as a number, where a boolean counts as 0 or 1. */
  function ChangeOf(host: Host, target: Target, value: Value): Option<Change> {
    match target
    case NoTarget => None
    case Direct(group, slot) => Some(Change(group, slot, value))
    case UsdTarget =>
      (match FloatOf(host, value)
       case Some(num) => if Negative(num) then None else Some(Change(ProfileGroup, PerSessionUsd, Float(num)))
       case None => None)
    case StopTarget =>
      match ParseBool(host, value)
      case Some(flag) => Some(Change(ProfileGroup, HardStop, flag))
      case None => None
  }

  /** An edit of the budget reads exactly the values that the question reads, and booleans besides. */
  lemma BudgetEditTakesBooleans(host: Host, value: Value)
    ensures ChangeOf(host, UsdTarget, value).Some? && ParseFloat(host, value).None? <==> value.Bool?
    ensures ParseFloat(host, value).Some? ==>
              ChangeOf(host, UsdTarget, value)
                == Some(Change(ProfileGroup, PerSessionUsd, ParseFloat(host, value).value))
  {
  }

  /** The draft after an accepted edit; None when it reports errors. */
  function Edited(host: Host, draft: Draft, path: string, value: Value): Option<Draft> {
    match ChangeOf(host, TargetOf(path), value)
    case None => None
    case Some(change) =>
      var draft' := draft[change.slot := change.value];
      if GroupValid(host, change.group, draft') then Some(draft') else None
  }

  // ---------------------------------------------------------------- records

  datatype Profile = Profile(
    genre: Value, tone: Value, touchstones: Value, pillarWeights: Value, pacing: Value, combatStyle: Value,
    diceUx: Value,
    campaignLength: Value, characterMode: Value, deathPolicy: Value, perSessionUsd: Value, hardStop: Value)

  datatype Policy = Policy(hardLimits: Value, softLimits: Value, preferences: Value)

  datatype HouseRules = HouseRules(diceUx: Value, initiativeVisible: bool, allowRetcon: bool, autoSave: bool)

  datatype Records = Records(profile: Profile, policy: Policy, rules: HouseRules)

  function OrElse(v: Value, other: Value): Value {
    if v.Null? then other else v
  }

  function RecordsOf(draft: Draft): Records {
    Records(
      Profile(Get(draft, Genre), Get(draft, Tone), Get(draft, Touchstones), Get(draft, PillarWeights),
              Get(draft, Pacing),
              Get(draft, CombatStyle), Get(draft, DiceUx), Get(draft, CampaignLength), Get(draft, CharacterMode),
              Get(draft, DeathPolicy), Get(draft, PerSessionUsd), Get(draft, HardStop)),
      Policy(OrElse(Get(draft, HardLimits), List([])), OrElse(Get(draft, SoftLimits), Dict([])),
             OrElse(Get(draft, Preferences), List([]))),
      HouseRules(Get(draft, DiceUx), true, true, true))
  }

  /** None when a slot is still empty or a record is invalid. */
  function BuildRecords(host: Host, draft: Draft): Option<Records> {
    if
      && GroupValid(host, ProfileGroup, draft) && GroupValid(host, PolicyGroup, draft)
      && GroupValid(host, RulesGroup, draft)
    then
      Some(RecordsOf(draft))
    else None
  }

  // ---------------------------------------------------------------- steps

  datatype State = State(phase: Phase, draft: Draft)

  function Answer(answers: Answers, slot: Slot): Value {
    if slot in answers.given then answers.given[slot] else Null
  }

  /** The parsed answers of all fields, or None as soon as one of them has an error. */
  function Parsed(host: Host, fields: seq<Slot>, answers: Answers): (r: Option<seq<Value>>)
    ensures r.Some? ==> |r.value| == |fields|
  {
    if fields == [] then Some([])
    else
      var last := fields[|fields| - 1];
      match (Parsed(host, fields[..|fields| - 1], answers), ParseAnswer(host, KindOf(last), Answer(answers, last)))
      case (Some(values), Some(v)) => Some(values + [v])
      case _ => None
  }

  function Store(draft: Draft, fields: seq<Slot>, values: seq<Value>): Draft
    requires |values| == |fields|
  {
    if fields == [] then draft
    else
      var n := |fields| - 1;
      Store(draft, fields[..n], values[..n])[fields[n] := values[n]]
  }

  /** The state after an accepted step; None when it reports errors or the interview is over. */
  function Stepped(host: Host, s: State, answers: Answers): Option<State> {
    match s.phase
    case DonePhase => None
    case ReviewPhase =>
      if ParseBool(host, answers.confirmed) == Some(Bool(true)) then Some(s.(phase := DonePhase)) else None
    case _ =>
      match Parsed(host, Fields(s.phase), answers)
      case Some(values) => Some(State(NextPhase(s.phase), Store(s.draft, Fields(s.phase), values)))
      case None => None
  }

  method ParseField(host: Host, kind: Kind, raw: Value) returns (r: Option<Value>)
    ensures r == ParseAnswer(host, kind, raw)
  {
    if kind.PillarPoints? {
      r := ParsePillarBudget(raw);
    } else if kind.SoftLimitMap? {
      r := ParseSoftLimitMap(raw);
    } else {
      r := ParseAnswer(host, kind, raw);
    }
  }

  datatype StepResult = AlreadyComplete | StepResult(ok: bool, phase: Phase)

  class OnboardingWizard {
    var phase: Phase
    var draft: Draft

    function Current(): State
      reads this
    {
      State(phase, draft)
    }

    constructor ()
      ensures phase == WelcomePhase && Total(draft) && forall slot: Slot :: draft[slot] == Null
    {
      phase := WelcomePhase;
      draft := map slot: Slot | InGroup(ProfileGroup, slot) || InGroup(PolicyGroup, slot) :: Null;
    }

    /** Parses every field first; the draft and the phase change together or not at all. */
    method Step(host: Host, answers: Answers) returns (r: StepResult)
      modifies this
      ensures r.AlreadyComplete? <==> old(phase).DonePhase?
      ensures r.StepResult? ==> r.ok == Stepped(host, old(Current()), answers).Some? && r.phase == phase
      ensures Current() == match Stepped(host, old(Current()), answers) case Some(s) => s case None => old(Current())
    {
      if phase.DonePhase? { return AlreadyComplete; }
      if phase.ReviewPhase? {
        var confirmed := ParseBool(host, answers.confirmed);
        if confirmed != Some(Bool(true)) { return StepResult(false, phase); }
        phase := DonePhase;
        return StepResult(true, phase);
      }
      var fields := Fields(phase);
      var values := ParseAll(host, fields, answers);
      if values.None? { return StepResult(false, phase); }
      StoreAll(fields, values.value);
      phase := NextPhase(phase);
      return StepResult(true, phase);
    }

    method ParseAll(host: Host, fields: seq<Slot>, answers: Answers) returns (r: Option<seq<Value>>)
      ensures r == Parsed(host, fields, answers)
    {
      var errors, values: seq<Value> := false, [];
      for i := 0 to |fields|
        invariant Parsed(host, fields[..i], answers) == if errors then None else Some(values)
      {
        assert fields[..i + 1][..i] == fields[..i];
        var parsed := ParseField(host, KindOf(fields[i]), Answer(answers, fields[i]));
        if parsed.None? { errors := true; } else { values := values + [parsed.value]; }
      }
      assert fields[..|fields|] == fields;
      return if errors then None else Some(values);
    }

    method StoreAll(fields: seq<Slot>, values: seq<Value>)
      requires |values| == |fields|
      modifies this`draft
      ensures draft == Store(old(draft), fields, values)
    {
      for i := 0 to |fields|
        invariant draft == Store(old(draft), fields[..i], values[..i])
      {
        assert fields[..i + 1][..i] == fields[..i] && values[..i + 1][..i] == values[..i];
        draft := draft[fields[i] := values[i]];
      }
      assert fields[..|fields|] == fields && values[..|values|] == values;
    }

    /** Sets the slot, validates the record, and puts the old value back when it is rejected. */
    method Edit(host: Host, path: string, value: Value) returns (ok: bool)
      requires Total(draft)
      modifies this`draft
      ensures ok == Edited(host, old(draft), path, value).Some?
      ensures draft == match Edited(host, old(draft), path, value) case Some(d) => d case None => old(draft)
    {
      var change := ChangeOf(host, TargetOf(path), value);
      if change.None? { return false; }
      var previous := draft[change.value.slot];
      draft := draft[change.value.slot := change.value.value];
      ok := GroupValid(host, change.value.group, draft);
      if !ok {
        draft := draft[change.value.slot := previous];
        assert draft == old(draft);
      }
    }
  }

  // ---------------------------------------------------------------- parsed answers

  lemma {:induction false} TextsAre(host: Host, items: seq<Value>)
    ensures IsStringList(List(Texts(host, items)))
  {
    if items != [] { TextsAre(host, items[1..]); }
  }

  lemma {:induction false} LookupKey(entries: seq<Entry>, key: Key)
    ensures Lookup(entries, key).Some? <==> key in Keys(entries)
  {
    if entries != [] {
      LookupKey(entries[1..], key);
      assert entries == [entries[0]] + entries[1..];
    }
  }

  /** The four weights of a point budget: tenths that add up to exactly one. */
  lemma PillarWeightsSumToOne(raw: Value)
    requires PillarBudget(raw).Some?
    ensures IsWeights(PillarBudget(raw).value)
    ensures TotalWeight(PillarBudget(raw).value.entries) == Finite(1.0)
  {
    var weights := PillarBudget(raw).value.entries;
    assert Keys(weights) == PILLAR_KEYS by {
      assert weights[0] in weights && weights[1] in weights && weights[2] in weights && weights[3] in weights;
    }
    FourWeights(weights);
  }

  lemma FourWeights(w: seq<Entry>)
    requires |w| == 4 && forall i :: 0 <= i < 4 ==> w[i].value.Float? && w[i].value.num.Finite?
    ensures TotalWeight(w)
            == Finite(w[0].value.num.value + w[1].value.num.value + w[2].value.num.value + w[3].value.num.value)
  {
    assert w[..3][..2] == w[..2] && w[..2][..1] == w[..1] && w[..1][..0] == [];
    assert TotalWeight(w[..1]) == Finite(w[0].value.num.value);
    assert TotalWeight(w[..2]) == Finite(w[0].value.num.value + w[1].value.num.value);
    assert TotalWeight(w[..3]) == Plus(TotalWeight(w[..2]), w[2].value.num);
  }

  /** A point budget is accepted exactly when it gives ten points in non-negative integers to the four pillars. */
  lemma PillarBudgetAccepts(raw: Value)
    ensures PillarBudget(raw).Some? <==>
            && raw.Dict? && Keys(raw.entries) == PILLAR_KEYS
            && exists a: nat, b: nat, c: nat, d: nat ::
                 && a + b + c + d == 10
                 && Lookup(raw.entries, Name("combat")) == Some(Int(a))
                 && Lookup(raw.entries, Name("exploration")) == Some(Int(b))
                 && Lookup(raw.entries, Name("social")) == Some(Int(c))
                 && Lookup(raw.entries, Name("puzzle")) == Some(Int(d))
  {
    if PillarBudget(raw).Some? {
      var a, b := Points(raw.entries, "combat").value, Points(raw.entries, "exploration").value;
      var c, d := Points(raw.entries, "social").value, Points(raw.entries, "puzzle").value;
      assert Lookup(raw.entries, Name("combat")) == Some(Int(a)) && a + b + c + d == 10;
    }
  }

  lemma {:induction false} SetKeySoft(entries: seq<Entry>, name: string, value: Value)
    requires IsSoftLimits(Dict(entries)) && IsChoice(value, SOFT_ACTIONS)
    ensures IsSoftLimits(Dict(SetKey(entries, Name(name), value)))
  {
    if entries != [] && entries[0].key != Name(name) { SetKeySoft(entries[1..], name, value); }
  }

  lemma {:induction false} StrippedAreSoft(entries: seq<Entry>)
    requires AllGood(entries)
    ensures IsSoftLimits(Dict(StrippedLimits(entries)))
  {
    if entries != [] {
      var n := |entries| - 1;
      StrippedAreSoft(entries[..n]);
      assert GoodSoftLimit(entries[n]);
      SetKeySoft(StrippedLimits(entries[..n]), Text.Strip(entries[n].key.name), entries[n].value);
    }
  }

  /** The value of the last entry whose key strips to a name. */
  function LastValue(entries: seq<Entry>, name: string): Option<Value>
    requires AllGood(entries)
  {
    if entries == [] then None
    else
      var n := |entries| - 1;
      assert GoodSoftLimit(entries[n]);
      if Text.Strip(entries[n].key.name) == name then Some(entries[n].value) else LastValue(entries[..n], name)
  }

  lemma {:induction false} SetKeyLookup(entries: seq<Entry>, key: Key, value: Value, other: Key)
    ensures Lookup(SetKey(entries, key, value), other) == if other == key then Some(value) else Lookup(entries, other)
  {
    if entries != [] && entries[0].key != key {
      SetKeyLookup(entries[1..], key, value, other);
      assert SetKey(entries, key, value)[1..] == SetKey(entries[1..], key, value);
    } else if entries != [] {
      assert ([Entry(key, value)] + entries[1..])[1..] == entries[1..];
    } else {
      assert [Entry(key, value)][1..] == [];
    }
  }

  /** The last entry whose key strips to the name. */
  predicate LastWith(entries: seq<Entry>, name: string, i: nat)
    requires i < |entries| && AllGood(entries)
  {
    && KeyName(entries, i) == name
    && forall k :: i < k < |entries| ==> KeyName(entries, k) != name
  }

  function KeyName(entries: seq<Entry>, i: nat): string
    requires i < |entries| && AllGood(entries)
  {
    assert GoodSoftLimit(entries[i]);
    Text.Strip(entries[i].key.name)
  }

  lemma {:induction false} LastValueAt(entries: seq<Entry>, name: string, i: nat)
    requires AllGood(entries) && i < |entries| && LastWith(entries, name, i)
    ensures LastValue(entries, name) == Some(entries[i].value)
  {
    var n := |entries| - 1;
    assert KeyName(entries, n) == Text.Strip(entries[n].key.name);
    if i < n {
      forall k | i <= k < n ensures KeyName(entries[..n], k) == KeyName(entries, k) {}
      LastValueAt(entries[..n], name, i);
    }
  }

  lemma {:induction false} NoValue(entries: seq<Entry>, name: string)
    requires AllGood(entries)
    ensures LastValue(entries, name).None? ==> forall k :: 0 <= k < |entries| ==> KeyName(entries, k) != name
    ensures (forall k :: 0 <= k < |entries| ==> KeyName(entries, k) != name) ==> LastValue(entries, name).None?
  {
    if entries != [] {
      var n := |entries| - 1;
      assert KeyName(entries, n) == Text.Strip(entries[n].key.name);
      NoValue(entries[..n], name);
      forall k | 0 <= k < n ensures KeyName(entries, k) == KeyName(entries[..n], k) {}
      if LastValue(entries, name).None? {
        forall k | 0 <= k < n ensures KeyName(entries, k) != name {
          assert KeyName(entries[..n], k) != name;
        }
      }
    }
  }

  lemma {:induction false} StoredIsLast(entries: seq<Entry>, name: string)
    requires AllGood(entries)
    ensures Lookup(StrippedLimits(entries), Name(name)) == LastValue(entries, name)
  {
    if entries != [] {
      var n := |entries| - 1;
      assert GoodSoftLimit(entries[n]);
      StoredIsLast(entries[..n], name);
      SetKeyLookup(StrippedLimits(entries[..n]), Name(Text.Strip(entries[n].key.name)), entries[n].value, Name(name));
    }
  }

  /** Of keys that strip to one, the stored limit is that of the last; no other limit is stored. */
  lemma LastLimitWins(entries: seq<Entry>, name: string)
    requires AllGood(entries)
    ensures var stored := Lookup(StrippedLimits(entries), Name(name));
            && (stored.None? <==> forall k :: 0 <= k < |entries| ==> KeyName(entries, k) != name)
            && forall i :: 0 <= i < |entries| && LastWith(entries, name, i) ==> stored == Some(entries[i].value)
  {
    StoredIsLast(entries, name);
    NoValue(entries, name);
    forall i | 0 <= i < |entries| && LastWith(entries, name, i)
      ensures LastValue(entries, name) == Some(entries[i].value)
    {
      LastValueAt(entries, name, i);
    }
  }

  /** What a step may store in a slot: all that the models accept, and a budget that may be NaN. */
  predicate Storable(host: Host, slot: Slot, v: Value) {
    Accepts(host.(nanAllowed := true), slot, v)
  }

  /** Every parsed answer can be stored. */
  lemma ParsedIsStorable(host: Host, slot: Slot, raw: Value)
    ensures var r := ParseAnswer(host, KindOf(slot), raw); r.Some? ==> Storable(host, slot, r.value)
  {
    match KindOf(slot)
    case MultiText(_) => MultiTextStorable(host, raw);
    case PillarPoints => if PillarBudget(raw).Some? { PillarWeightsSumToOne(raw); }
    case SoftLimitMap => if raw.Dict? && AllGood(raw.entries) { StrippedAreSoft(raw.entries); }
    case _ =>
  }

  lemma MultiTextStorable(host: Host, raw: Value)
    ensures ParseMultiText(host, false, raw).Some? && IsStringList(ParseMultiText(host, false, raw).value)
  {
    match raw
    case List(items) => TextsAre(host, items);
    case Str(text) => TextsAre(host, AsStrings(Text.Split(text, ',')));
    case Null =>
    case _ => TextsAre(host, [raw]);
  }

  // ---------------------------------------------------------------- every run of steps and edits

  /** Every slot that an earlier phase asked for holds a storable value. */
  ghost predicate Inv(host: Host, s: State) {
    && Total(s.draft)
    && forall slot: Slot :: PhaseOf(slot).Index() < s.phase.Index() ==> Storable(host, slot, Get(s.draft, slot))
  }

  datatype Event = StepOf(answers: Answers) | EditOf(path: string, value: Value)

  /** A step or edit that reports errors changes nothing. */
  function Next(host: Host, s: State, e: Event): State {
    match e
    case StepOf(answers) => (match Stepped(host, s, answers) case Some(t) => t case None => s)
    case EditOf(path, value) => (match Edited(host, s.draft, path, value) case Some(d) => s.(draft := d) case None => s)
  }

  function Run(host: Host, s: State, events: seq<Event>): State {
    if events == [] then s else Next(host, Run(host, s, events[..|events| - 1]), events[|events| - 1])
  }

  lemma FieldsOfPhase(p: Phase, slot: Slot)
    ensures slot in Fields(p) <==> PhaseOf(slot) == p
  {
    if slot in Fields(p) {
      var k :| 0 <= k < |Fields(p)| && Fields(p)[k] == slot;
    } else {
      FieldOfSlot(slot);
    }
  }

  lemma FieldOfSlot(slot: Slot)
    ensures slot in Fields(PhaseOf(slot))
  {
    var fields := Fields(PhaseOf(slot));
    match slot
    case Touchstones => assert fields[1] == slot;
    case Pacing => assert fields[1] == slot;
    case DiceUx => assert fields[1] == slot;
    case SoftLimits => assert fields[1] == slot;
    case Preferences => assert fields[2] == slot;
    case DeathPolicy => assert fields[1] == slot;
    case HardStop => assert fields[1] == slot;
    case _ => assert fields[0] == slot;
  }

  lemma {:induction false} StoredSlot(host: Host, draft: Draft, fields: seq<Slot>, answers: Answers, slot: Slot)
    requires Total(draft) && Parsed(host, fields, answers).Some?
    ensures var after := Store(draft, fields, Parsed(host, fields, answers).value);
            && slot in after
            && if slot in fields then Storable(host, slot, Get(after, slot)) else Get(after, slot) == Get(draft, slot)
  {
    if fields != [] {
      var n := |fields| - 1;
      StoredSlot(host, draft, fields[..n], answers, slot);
      ParsedIsStorable(host, fields[n], Answer(answers, fields[n]));
      var values := Parsed(host, fields, answers).value;
      assert values[..n] == Parsed(host, fields[..n], answers).value;
      assert fields == fields[..n] + [fields[n]];
    }
  }

  lemma NextPhaseIndex(p: Phase)
    requires !p.DonePhase?
    ensures NextPhase(p).Index() == p.Index() + 1
  {
  }

  lemma IndexDecides(p: Phase, q: Phase)
    ensures p.Index() == q.Index() ==> p == q
  {
  }

  lemma AnsweredKeeps(host: Host, s: State, answers: Answers)
    requires Inv(host, s) && !s.phase.DonePhase? && Parsed(host, Fields(s.phase), answers).Some?
    ensures var draft := Store(s.draft, Fields(s.phase), Parsed(host, Fields(s.phase), answers).value);
            Inv(host, State(NextPhase(s.phase), draft))
  {
    var fields := Fields(s.phase);
    var after := Store(s.draft, fields, Parsed(host, fields, answers).value);
    NextPhaseIndex(s.phase);
    forall slot: Slot ensures slot in after
      ensures PhaseOf(slot).Index() <= s.phase.Index() ==> Storable(host, slot, Get(after, slot))
    {
      FieldsOfPhase(s.phase, slot);
      IndexDecides(PhaseOf(slot), s.phase);
      StoredSlot(host, s.draft, fields, answers, slot);
    }
  }

  /** The review is the only way to the end: there every slot has been asked for. */
  lemma StepKeeps(host: Host, s: State, answers: Answers)
    requires Inv(host, s) && Stepped(host, s, answers).Some?
    ensures Inv(host, Stepped(host, s, answers).value)
  {
    if s.phase.ReviewPhase? {
      forall slot: Slot ensures Storable(host, slot, Get(s.draft, slot)) { assert PhaseOf(slot).Index() < 8; }
    } else {
      AnsweredKeeps(host, s, answers);
    }
  }

  lemma AcceptedIsStorable(host: Host, slot: Slot, v: Value)
    ensures Accepts(host, slot, v)
            <==> Storable(host, slot, v) && !(slot.PerSessionUsd? && v.Float? && v.num.NaN? && !host.nanAllowed)
  {
  }

  lemma EditKeeps(host: Host, s: State, path: string, value: Value)
    requires Inv(host, s) && Edited(host, s.draft, path, value).Some?
    ensures Inv(host, s.(draft := Edited(host, s.draft, path, value).value))
  {
    var change := ChangeOf(host, TargetOf(path), value).value;
    var draft' := s.draft[change.slot := change.value];
    TargetInGroup(path);
    AcceptedIsStorable(host, change.slot, change.value);
    assert Get(draft', change.slot) == change.value;
    forall slot: Slot | slot != change.slot ensures Get(draft', slot) == Get(s.draft, slot) {}
  }

  lemma TargetInGroup(path: string)
    ensures TargetOf(path).Direct? ==> InGroup(TargetOf(path).group, TargetOf(path).slot)
    ensures TargetOf(path).Direct? ==> TargetOf(path).slot != CombatStyle
  {
  }

  lemma NextKeeps(host: Host, s: State, e: Event)
    requires Inv(host, s)
    ensures Inv(host, Next(host, s, e))
  {
    match e
    case StepOf(answers) => if Stepped(host, s, answers).Some? { StepKeeps(host, s, answers); }
    case EditOf(path, value) => if Edited(host, s.draft, path, value).Some? { EditKeeps(host, s, path, value); }
  }

  /** Over every interleaving of steps and edits, each slot that was asked for holds a storable value. */
  lemma {:induction false} RunKeeps(host: Host, s: State, events: seq<Event>)
    requires Inv(host, s)
    ensures Inv(host, Run(host, s, events))
  {
    if events != [] {
      RunKeeps(host, s, events[..|events| - 1]);
      NextKeeps(host, Run(host, s, events[..|events| - 1]), events[|events| - 1]);
    }
  }

  /** The phase stays or moves one place ahead, only a step moves it, and only a confirmed review ends it. */
  lemma PhaseMovesForward(host: Host, s: State, e: Event)
    ensures var t := Next(host, s, e);
            && (t.phase == s.phase || (e.StepOf? && !s.phase.DonePhase? && t.phase == NextPhase(s.phase)))
            && (t.phase.DonePhase? && !s.phase.DonePhase? ==>
                  && s.phase.ReviewPhase? && e.StepOf? && t.draft == s.draft
                  && ParseBool(host, e.answers.confirmed) == Some(Bool(true)))
            && (s.phase.DonePhase? && e.StepOf? ==> t == s)
  {
  }

  /** Phases only ever move forward, and a run that ends has passed through a confirmed review. */
  lemma {:induction false} DoneOnlyAfterReview(host: Host, s: State, events: seq<Event>)
    ensures s.phase.Index() <= Run(host, s, events).phase.Index()
    ensures !s.phase.DonePhase? && Run(host, s, events).phase.DonePhase? ==>
              exists k :: 0 <= k < |events| && Confirmation(host, s, events, k)
  {
    if events != [] {
      var n := |events| - 1;
      var before := Run(host, s, events[..n]);
      DoneOnlyAfterReview(host, s, events[..n]);
      PhaseMovesForward(host, before, events[n]);
      if !before.phase.DonePhase? { NextPhaseIndex(before.phase); }
      if !s.phase.DonePhase? && Run(host, s, events).phase.DonePhase? {
        if before.phase.DonePhase? {
          var k :| 0 <= k < n && Confirmation(host, s, events[..n], k);
          assert events[..n][..k] == events[..k];
          assert Confirmation(host, s, events, k);
        } else {
          assert Confirmation(host, s, events, n);
        }
      }
    }
  }

  /** Event `k` is a step that confirms the review. */
  ghost predicate Confirmation(host: Host, s: State, events: seq<Event>, k: nat)
    requires k < |events|
  {
    && Run(host, s, events[..k]).phase.ReviewPhase?
    && events[k].StepOf?
    && ParseBool(host, events[k].answers.confirmed) == Some(Bool(true))
  }

  /** From the review on the records can be built, unless the budget is a NaN that the models reject. */
  lemma RecordsFromReviewOn(host: Host, s: State)
    requires Inv(host, s) && s.phase.Index() >= 8
    ensures BuildRecords(host, s.draft).Some? <==>
            !(Get(s.draft, PerSessionUsd) == Float(NaN) && !host.nanAllowed)
  {
    forall slot: Slot
      ensures Storable(host, slot, Get(s.draft, slot))
      ensures Accepts(host, slot, Get(s.draft, slot))
              <==> !(slot.PerSessionUsd? && Get(s.draft, slot) == Float(NaN) && !host.nanAllowed)
    {
      assert PhaseOf(slot).Index() < 8;
      AcceptedIsStorable(host, slot, Get(s.draft, slot));
    }
    if Get(s.draft, PerSessionUsd) == Float(NaN) && !host.nanAllowed {
      assert InGroup(ProfileGroup, PerSessionUsd) && !Accepts(host, PerSessionUsd, Get(s.draft, PerSessionUsd));
    } else {
      forall group: Group ensures GroupValid(host, group, s.draft) {}
    }
  }

  /** An accepted edit changes one slot of its record, never the combat style, and leaves a record that can be built. */
  lemma EditedIsValid(host: Host, draft: Draft, path: string, value: Value)
    requires Edited(host, draft, path, value).Some?
    ensures var change, after := ChangeOf(host, TargetOf(path), value).value, Edited(host, draft, path, value).value;
            && GroupValid(host, change.group, after)
            && (forall slot: Slot :: slot != change.slot ==> Get(after, slot) == Get(draft, slot))
            && Get(after, change.slot) == change.value
            && InGroup(change.group, change.slot) && change.slot != CombatStyle
  {
    TargetInGroup(path);
  }

  lemma RecordValues(host: Host, draft: Draft, slot: Slot)
    requires BuildRecords(host, draft).Some?
    ensures Accepts(host, slot, Get(draft, slot))
  {
    assert InGroup(ProfileGroup, slot) || InGroup(PolicyGroup, slot);
  }

  /** The profile and the house rules carry the same dice setting, and the combat style is the fixed one. */
  lemma RecordsAgree(host: Host, draft: Draft)
    requires BuildRecords(host, draft).Some?
    ensures var r := BuildRecords(host, draft).value;
            && r.profile.diceUx == r.rules.diceUx
            && Accepts(host, DiceUx, r.rules.diceUx) && Accepts(host, CombatStyle, r.profile.combatStyle)
  {
    RecordValues(host, draft, DiceUx);
    RecordValues(host, draft, CombatStyle);
  }

  lemma ListOrEmpty(host: Host, slot: Slot, v: Value)
    requires Accepts(host, slot, v) && (slot.HardLimits? || slot.Preferences?)
    ensures IsStringList(OrElse(v, List([])))
  {
  }

  lemma LimitsOrEmpty(host: Host, v: Value)
    requires Accepts(host, SoftLimits, v)
    ensures IsSoftLimits(OrElse(v, Dict([])))
  {
  }

  /** The built policy reads missing answers as empty. */
  lemma PolicyIsComplete(host: Host, draft: Draft)
    requires BuildRecords(host, draft).Some?
    ensures var p := BuildRecords(host, draft).value.policy;
            IsStringList(p.hardLimits) && IsSoftLimits(p.softLimits) && IsStringList(p.preferences)
  {
    RecordValues(host, draft, HardLimits);
    RecordValues(host, draft, SoftLimits);
    RecordValues(host, draft, Preferences);
    ListOrEmpty(host, HardLimits, Get(draft, HardLimits));
    ListOrEmpty(host, Preferences, Get(draft, Preferences));
    LimitsOrEmpty(host, Get(draft, SoftLimits));
  }

  /**
   Any interleaving of steps and edits from the start that reaches the review can build its records,
   unless the stored budget is a NaN that the models reject.
   */
  lemma InterviewBuildsRecords(host: Host, draft: Draft, events: seq<Event>)
    requires Total(draft) && Run(host, State(WelcomePhase, draft), events).phase.Index() >= 8
    ensures var end := Run(host, State(WelcomePhase, draft), events).draft;
            BuildRecords(host, end).Some? <==> !(Get(end, PerSessionUsd) == Float(NaN) && !host.nanAllowed)
  {
    var start := State(WelcomePhase, draft);
    RunKeeps(host, start, events);
    RecordsFromReviewOn(host, Run(host, start, events));
  }

  // ---------------------------------------------------------------- field by field

  /** Every field of the built records holds the draft's value of its own slot, missing policy answers read as empty. */
  lemma RecordFields(host: Host, draft: Draft)
    requires Total(draft) && BuildRecords(host, draft).Some?
    ensures var p, q, h := BuildRecords(host, draft).value.profile, BuildRecords(host, draft).value.policy,
                           BuildRecords(host, draft).value.rules;
            && p.genre == draft[Genre] && p.tone == draft[Tone] && p.touchstones == draft[Touchstones]
            && p.pillarWeights == draft[PillarWeights] && p.pacing == draft[Pacing]
            && p.combatStyle == draft[CombatStyle] && p.diceUx == draft[DiceUx]
            && p.campaignLength == draft[CampaignLength] && p.characterMode == draft[CharacterMode]
            && p.deathPolicy == draft[DeathPolicy] && p.perSessionUsd == draft[PerSessionUsd]
            && p.hardStop == draft[HardStop]
            && q.hardLimits == (if draft[HardLimits] == Null then List([]) else draft[HardLimits])
            && q.softLimits == (if draft[SoftLimits] == Null then Dict([]) else draft[SoftLimits])
            && q.preferences == (if draft[Preferences] == Null then List([]) else draft[Preferences])
            && h.diceUx == draft[DiceUx] && h.initiativeVisible && h.allowRetcon && h.autoSave
  {
  }

  /** The choices that a slot can hold, in the words of the forms. */
  predicate InWords(slot: Slot, text: string) {
    match slot
    case Pacing => text == "slow" || text == "medium" || text == "fast"
    case CombatStyle => text == "theater_of_mind"
    case DiceUx => text == "auto" || text == "reveal" || text == "hidden"
    case CampaignLength => text == "one_shot" || text == "arc" || text == "open_ended"
    case DeathPolicy => text == "hardcore" || text == "heroic_recovery" || text == "retire_and_continue"
    case CharacterMode => text == "guided" || text == "player_led" || text == "pregenerated"
    case _ => false
  }

  /** The slots that hold one of a few words. */
  predicate IsWordSlot(slot: Slot) {
    slot in [Pacing, CombatStyle, DiceUx, CampaignLength, DeathPolicy, CharacterMode]
  }

  /** A choice is taken when its stripped text is one of the words; the models accept those words and no other. */
  lemma ChoiceMeans(host: Host, slot: Slot, raw: Value)
    requires IsWordSlot(slot)
    ensures var text := if raw == Null then "" else Text.Strip(if raw.Str? then raw.text else host.show(raw));
            ParseAnswer(host, KindOf(slot), raw) == if InWords(slot, text) then Some(Str(text)) else None
    ensures Accepts(host, slot, raw) <==> raw.Str? && InWords(slot, raw.text)
  {
    WordsOf(slot, if raw == Null then "" else Text.Strip(if raw.Str? then raw.text else host.show(raw)));
    if raw.Str? { WordsOf(slot, raw.text); }
  }

  lemma WordsOf(slot: Slot, text: string)
    requires IsWordSlot(slot)
    ensures KindOf(slot).Choice? && (text in KindOf(slot).choices <==> InWords(slot, text))
  {
  }

  /** The texts of an answer: the items of a list, the parts of a text between commas, or any other value shown. */
  function ItemsOf(raw: Value): seq<Value> {
    match raw
    case Null => []
    case List(items) => items
    case Str(text) => AsStrings(Text.Split(text, ','))
    case _ => [raw]
  }

  predicate IsTextSlot(slot: Slot) {
    slot in [Genre, Tone, Touchstones, HardLimits, Preferences]
  }

  lemma {:induction false} TextsMeans(host: Host, items: seq<Value>, t: string)
    ensures Str(t) in Texts(host, items) <==> t != "" && IsShown(host, items, t)
  {
    if items != [] {
      TextsMeans(host, items[1..], t);
      if i :| 0 <= i < |items| && Text.Strip(Shown(host, items[i])) == t && i > 0 {
        assert items[1..][i - 1] == items[i];
      }
      if j :| 0 <= j < |items[1..]| && Text.Strip(Shown(host, items[1..][j])) == t {
        assert items[j + 1] == items[1..][j];
      }
    }
  }

  ghost predicate IsShown(host: Host, items: seq<Value>, t: string) {
    exists i :: 0 <= i < |items| && Text.Strip(Shown(host, items[i])) == t
  }

  ghost predicate AllBlank(host: Host, items: seq<Value>) {
    forall i :: 0 <= i < |items| ==> Text.Strip(Shown(host, items[i])) == ""
  }

  lemma {:induction false} BlankTexts(host: Host, items: seq<Value>)
    ensures Texts(host, items) == [] <==> AllBlank(host, items)
  {
    if items != [] {
      BlankTexts(host, items[1..]);
      if AllBlank(host, items[1..]) && Text.Strip(Shown(host, items[0])) == "" {
        forall i | 0 < i < |items| ensures Text.Strip(Shown(host, items[i])) == "" {
          assert items[i] == items[1..][i - 1];
        }
      }
      if AllBlank(host, items) {
        forall j | 0 <= j < |items[1..]| ensures Text.Strip(Shown(host, items[1..][j])) == "" {
          assert items[1..][j] == items[j + 1];
        }
      }
    }
  }

  lemma ListAnswer(host: Host, required: bool, raw: Value, t: string)
    ensures var r := ParseMultiText(host, required, raw);
            && (r.None? <==> required && AllBlank(host, ItemsOf(raw)))
            && (r.Some? ==> r.value.List? && forall x :: x in r.value.items ==> x.Str?)
            && (r.Some? ==> (Str(t) in r.value.items <==> t != "" && IsShown(host, ItemsOf(raw), t)))
  {
    TextsMeans(host, ItemsOf(raw), t);
    BlankTexts(host, ItemsOf(raw));
    TextsAre(host, ItemsOf(raw));
  }

  /** A list answer holds the stripped texts that are not blank; genre, tone and touchstones need one. */
  lemma TextAnswerMeans(host: Host, slot: Slot, raw: Value, t: string)
    requires IsTextSlot(slot)
    ensures var r := ParseAnswer(host, KindOf(slot), raw);
            && (r.None? <==> slot in [Genre, Tone, Touchstones] && AllBlank(host, ItemsOf(raw)))
            && (r.Some? ==> r.value.List? && forall x :: x in r.value.items ==> x.Str?)
            && (r.Some? ==> (Str(t) in r.value.items <==> t != "" && IsShown(host, ItemsOf(raw), t)))
  {
    ListAnswer(host, slot in [Genre, Tone, Touchstones], raw, t);
  }

  /** The budget question takes numbers and texts that read as one, none below zero, and no boolean. */
  lemma BudgetMeans(host: Host, raw: Value)
    ensures var r := ParseAnswer(host, KindOf(PerSessionUsd), raw);
            match raw
            case Int(n) => r == if n < 0 then None else Some(Float(Finite(n as real)))
            case Float(num) => r == if Negative(num) then None else Some(raw)
            case Str(text) =>
              r == (match host.parseFloat(text)
                    case Some(num) => if Negative(num) then None else Some(Float(num))
                    case None => None)
            case _ => r == None
  {
  }

  /** Yes and no questions take booleans, 0 and 1, and the usual words in any case. */
  lemma BoolMeans(host: Host, raw: Value)
    ensures var r := ParseAnswer(host, KindOf(HardStop), raw);
            match raw
            case Bool(_) => r == Some(raw)
            case Int(n) => r == if n == 0 then Some(Bool(false)) else if n == 1 then Some(Bool(true)) else None
            case Str(text) =>
              var word := host.lower(Text.Strip(text));
              && (r == Some(Bool(true)) <==> word == "true" || word == "yes" || word == "y" || word == "1")
              && (r == Some(Bool(false)) <==> word == "false" || word == "no" || word == "n" || word == "0")
              && (r.Some? ==> r.value.Bool?)
            case _ => r == None
  {
  }

  /** The weight of each pillar is a tenth of its points. */
  lemma WeightsMean(raw: Value)
    requires PillarBudget(raw).Some?
    ensures ParseAnswer(Host(_ => "", _ => None, x => x, false), KindOf(PillarWeights), raw) == PillarBudget(raw)
    ensures var w := PillarBudget(raw).value;
            && w.Dict? && |w.entries| == 4
            && IsTenthOf(raw, w.entries[0], "combat") && IsTenthOf(raw, w.entries[1], "exploration")
            && IsTenthOf(raw, w.entries[2], "social") && IsTenthOf(raw, w.entries[3], "puzzle")
  {
  }

  ghost predicate IsTenthOf(raw: Value, e: Entry, pillar: string) {
    && raw.Dict? && e.key == Name(pillar) && e.value.Float? && e.value.num.Finite?
    && exists n: nat :: Lookup(raw.entries, Name(pillar)) == Some(Int(n)) && e.value.num.value * 10.0 == n as real
  }

  /** The phase that asks for each slot, in the order of the interview. */
  lemma AskedIn(slot: Slot, p: Phase)
    ensures slot in Fields(p) <==>
            match slot
            case Genre => p == WelcomePhase
            case Tone => p == TonePhase
            case Touchstones => p == TonePhase
            case PillarWeights => p == PillarsPhase
            case Pacing => p == PillarsPhase
            case CombatStyle => p == CombatDicePhase
            case DiceUx => p == CombatDicePhase
            case HardLimits => p == ContentPolicyPhase
            case SoftLimits => p == ContentPolicyPhase
            case Preferences => p == ContentPolicyPhase
            case CampaignLength => p == LengthDeathPhase
            case DeathPolicy => p == LengthDeathPhase
            case PerSessionUsd => p == BudgetPhase
            case HardStop => p == BudgetPhase
            case CharacterMode => p == CharacterModePhase
  {
    FieldsOfPhase(p, slot);
  }

  lemma {:induction false} StepParses(host: Host, fields: seq<Slot>, answers: Answers)
    ensures Parsed(host, fields, answers).Some? <==>
            forall f :: f in fields ==> ParseAnswer(host, KindOf(f), Answer(answers, f)).Some?
  {
    if fields != [] {
      StepParses(host, fields[..|fields| - 1], answers);
      assert fields == fields[..|fields| - 1] + [fields[|fields| - 1]];
    }
  }

  lemma {:induction false} StepStores(host: Host, draft: Draft, fields: seq<Slot>, answers: Answers, slot: Slot)
    requires Parsed(host, fields, answers).Some?
    ensures var after := Store(draft, fields, Parsed(host, fields, answers).value);
            if slot in fields then
              slot in after && Some(after[slot]) == ParseAnswer(host, KindOf(slot), Answer(answers, slot))
            else (slot in after <==> slot in draft) && (slot in draft ==> after[slot] == draft[slot])
  {
    if fields != [] {
      var n := |fields| - 1;
      StepStores(host, draft, fields[..n], answers, slot);
      assert fields == fields[..n] + [fields[n]];
      assert Parsed(host, fields, answers).value[..n] == Parsed(host, fields[..n], answers).value;
    }
  }

  /** A step is taken exactly when every answer asked for parses; it stores these and leaves other slots alone. */
  lemma StepMeans(host: Host, s: State, answers: Answers, slot: Slot)
    requires !s.phase.ReviewPhase? && !s.phase.DonePhase?
    ensures var r, parsed := Stepped(host, s, answers), ParseAnswer(host, KindOf(slot), Answer(answers, slot));
            && (r.Some? <==> forall f :: f in Fields(s.phase) ==>
                  ParseAnswer(host, KindOf(f), Answer(answers, f)).Some?)
            && (r.Some? ==>
                  && r.value.phase.Index() == s.phase.Index() + 1
                  && if slot in Fields(s.phase) then slot in r.value.draft && Some(r.value.draft[slot]) == parsed
                     else && (slot in r.value.draft <==> slot in s.draft)
                          && (slot in s.draft ==> r.value.draft[slot] == s.draft[slot]))
  {
    StepParses(host, Fields(s.phase), answers);
    if Stepped(host, s, answers).Some? { StepStores(host, s.draft, Fields(s.phase), answers, slot); }
    NextPhaseIndex(s.phase);
  }

  /** What a path names, by its first two parts. */
  lemma ProfileTarget(path: string, parts: seq<string>)
    requires parts == Text.Split(path, '.') && |parts| >= 2 && !Text.Contains(path, "combat_style")
    requires parts[0] == "profile"
    ensures var t := TargetOf(path);
            && (parts[1] == "genre" ==> t == Direct(ProfileGroup, Genre))
            && (parts[1] == "tone" ==> t == Direct(ProfileGroup, Tone))
            && (parts[1] == "touchstones" ==> t == Direct(ProfileGroup, Touchstones))
            && (parts[1] == "pillar_weights" ==> t == Direct(ProfileGroup, PillarWeights))
            && (parts[1] == "pacing" ==> t == Direct(ProfileGroup, Pacing))
            && (parts[1] == "dice_ux" ==> t == Direct(ProfileGroup, DiceUx))
            && (parts[1] == "campaign_length" ==> t == Direct(ProfileGroup, CampaignLength))
            && (parts[1] == "character_mode" ==> t == Direct(ProfileGroup, CharacterMode))
            && (parts[1] == "death_policy" ==> t == Direct(ProfileGroup, DeathPolicy))
            && (parts[1] == "budget" ==>
                  t == if |parts| > 2 && parts[2] == "per_session_usd" then UsdTarget
                       else if |parts| > 2 && parts[2] == "hard_stop" then StopTarget
                       else NoTarget)
  {
  }

  lemma OtherTarget(path: string, parts: seq<string>)
    requires parts == Text.Split(path, '.')
    ensures var t := TargetOf(path);
            && (Text.Contains(path, "combat_style") || |parts| < 2 ==> t == NoTarget)
            && (|parts| >= 2 && parts[0] !in ["profile", "content_policy", "house_rules"] ==> t == NoTarget)
            && (|parts| >= 2 && parts[0] == "content_policy" && !Text.Contains(path, "combat_style") ==>
                  t == if parts[1] == "hard_limits" then Direct(PolicyGroup, HardLimits)
                       else if parts[1] == "soft_limits" then Direct(PolicyGroup, SoftLimits)
                       else if parts[1] == "preferences" then Direct(PolicyGroup, Preferences)
                       else NoTarget)
            && (|parts| >= 2 && parts[0] == "house_rules" && !Text.Contains(path, "combat_style") ==>
                  t == if parts[1] == "dice_ux" then Direct(RulesGroup, DiceUx) else NoTarget)
  {
  }

  /** The draft differs in what an edit of this target stores. */
  ghost predicate EditStores(host: Host, target: Target, draft: Draft, value: Value, r: Draft) {
    match target
    case NoTarget => false
    case Direct(_, slot) => r == draft[slot := value]
    case UsdTarget => PerSessionUsd in r && r == draft[PerSessionUsd := r[PerSessionUsd]]
                      && r[PerSessionUsd].Float? && !Negative(r[PerSessionUsd].num)
    case StopTarget => HardStop in r && r == draft[HardStop := r[HardStop]]
                       && ParseAnswer(host, KindOf(HardStop), value) == Some(r[HardStop])
  }

  lemma ChangeStores(host: Host, target: Target, draft: Draft, value: Value)
    requires ChangeOf(host, target, value).Some?
    ensures var change := ChangeOf(host, target, value).value;
            EditStores(host, target, draft, value, draft[change.slot := change.value])
  {
  }

  lemma EditMeans(host: Host, draft: Draft, path: string, value: Value)
    requires Edited(host, draft, path, value).Some?
    ensures EditStores(host, TargetOf(path), draft, value, Edited(host, draft, path, value).value)
  {
    ChangeStores(host, TargetOf(path), draft, value);
  }

  /** The slots of each record. */
  lemma SlotsOfRecords(slot: Slot)
    ensures InGroup(PolicyGroup, slot) <==> slot == HardLimits || slot == SoftLimits || slot == Preferences
    ensures InGroup(ProfileGroup, slot) <==> slot != HardLimits && slot != SoftLimits && slot != Preferences
    ensures InGroup(RulesGroup, slot) <==> slot == DiceUx
  {
  }

  /** Weights are valid exactly when the four pillars, each once, add up to one, within a hundredth. */
  lemma WeightsAccepted(host: Host, a: real, b: real, c: real, d: real)
    ensures var v := Dict([Entry(Name("combat"), Float(Finite(a))), Entry(Name("exploration"), Float(Finite(b))),
                           Entry(Name("social"), Float(Finite(c))), Entry(Name("puzzle"), Float(Finite(d)))]);
            Accepts(host, PillarWeights, v) <==> 0.99 <= a + b + c + d <= 1.01
  {
    var entries := [Entry(Name("combat"), Float(Finite(a))), Entry(Name("exploration"), Float(Finite(b))),
                    Entry(Name("social"), Float(Finite(c))), Entry(Name("puzzle"), Float(Finite(d)))];
    assert entries[..3][..2] == entries[..2] && entries[..2][..1] == entries[..1] && entries[..1][..0] == [];
    assert TotalWeight(entries[..1]) == Finite(a);
    assert TotalWeight(entries[..2]) == Finite(a + b);
    assert TotalWeight(entries[..3]) == Finite(a + b + c);
    assert TotalWeight(entries) == Finite(a + b + c + d);
  }
}
