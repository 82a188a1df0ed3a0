/** Rendering a scene: stream into a buffer, scan, classify, audit, and retry or fall back. */
module SceneRender {
  import opened Basics
  import Text

  datatype StreamEvent = Token(text: string) | Completed | Failed(kind: string) | OtherEvent

  /** What a stream delivers, and whether it raises at the end of it. */
  datatype Stream = Stream(events: seq<StreamEvent>, raises: bool)

  /** A hard-limit term and the search for the first text that matches it. */
  datatype Pattern = Pattern(term: string, search: string -> Option<string>)

  datatype Hit = Hit(term: string, matched: string)

  datatype Verdict = Allowed | Rewrite(term: string, reason: string) | Blocked(term: string, reason: string)

  /** One attempt of the outside world: the budget's answer, the stream, and what the classifier would say. */
  datatype Attempt = Attempt(overBudget: bool, stream: Stream, classify: string -> Verdict)

  datatype Guard = Guard(patterns: seq<Pattern>, anyLimits: bool, maxRewrites: nat, fallbackText: string) {
    /** Without limits there is nothing to match. */
    predicate Valid() {
      !anyLimits ==> patterns == []
    }
  }

  /** The audit gives the violations of a text; it is used only when there are check results. */
  datatype Scene = Scene(
    turnId: string, guard: Guard, attempts: nat -> Attempt, hasChecks: bool, audit: string -> seq<string>,
    beats: seq<string>, beatIds: seq<string>, longWords: string -> set<string>, lower: string -> string)

  datatype SafetyEvent = SafetyEvent(id: string, kind: string, policyRef: Option<string>, action: string)

  datatype RenderResult = RenderResult(
    narration: seq<string>, resolvedBeats: seq<string>, events: seq<SafetyEvent>, usedFallback: bool)

  const CHECK_INTERVAL: nat := 50

  // ---------------------------------------------------------------- the guard

  /** The first hard-limit pattern that matches. */
  function CheckStream(patterns: seq<Pattern>, text: string): Option<Hit> {
    if patterns == [] then None
    else match patterns[0].search(text)
         case Some(matched) => Some(Hit(patterns[0].term, matched))
         case None => CheckStream(patterns[1..], text)
  }

  lemma {:induction false} CheckStreamClean(patterns: seq<Pattern>, text: string)
    ensures CheckStream(patterns, text).None? <==> forall p :: p in patterns ==> p.search(text).None?
  {
    if patterns != [] {
      CheckStreamClean(patterns[1..], text);
      assert patterns == [patterns[0]] + patterns[1..];
    }
  }

  /** A hit is the first pattern that matches, with what it matched. */
  lemma {:induction false} FirstHit(patterns: seq<Pattern>, text: string) returns (i: nat)
    requires CheckStream(patterns, text).Some?
    ensures i < |patterns| && forall k :: 0 <= k < i ==> patterns[k].search(text).None?
    ensures patterns[i].search(text) == Some(CheckStream(patterns, text).value.matched)
    ensures patterns[i].term == CheckStream(patterns, text).value.term
  {
    i := 0;
    if patterns[0].search(text).None? {
      var k := FirstHit(patterns[1..], text);
      i := k + 1;
      assert forall m :: 1 <= m < i ==> patterns[m] == patterns[1..][m - 1];
    }
  }

  function ScanGeneratedProse(guard: Guard, classify: string -> Verdict, prose: string): Verdict {
    if !guard.anyLimits then Allowed
    else match CheckStream(guard.patterns, prose)
         case Some(hit) => Blocked(hit.term, "hard limit found in generated prose: " + hit.term)
         case None => classify(prose)
  }

  predicate ShouldRetry(guard: Guard, attempt: nat) {
    attempt < guard.maxRewrites
  }

  function EventId(turnId: string, kind: string, sequence: nat): string {
    ("safety_" + turnId + "_render_" + kind) + "_" + Text.Decimal(sequence)
  }

  function MakeEvent(
      turnId: string, kind: string, policyRef: Option<string>, reason: string, sequence: nat): SafetyEvent
  {
    SafetyEvent(EventId(turnId, kind, sequence), kind, policyRef, Limit(reason, 200))
  }

  // ---------------------------------------------------------------- streaming

  datatype Streamed = Buffered(text: string) | Cancelled(hit: Hit) | StreamFailed(kind: string) | StreamRaised

  /** The stream from event `i` on, with the text so far and the length of the text at the last scan. */
  function StreamFrom(patterns: seq<Pattern>, stream: Stream, i: nat, buffer: string, scanned: nat): Streamed
    requires i <= |stream.events| && scanned <= |buffer|
    decreases |stream.events| - i
  {
    if i == |stream.events| then (if stream.raises then StreamRaised else Buffered(buffer))
    else
      match stream.events[i]
      case Completed => Buffered(buffer)
      case Failed(kind) => StreamFailed(kind)
      case OtherEvent => StreamFrom(patterns, stream, i + 1, buffer, scanned)
      case Token(text) =>
        var combined := buffer + text;
        if |combined| - scanned < CHECK_INTERVAL then StreamFrom(patterns, stream, i + 1, combined, scanned)
        else match CheckStream(patterns, combined)
             case Some(hit) => Cancelled(hit)
             case None => StreamFrom(patterns, stream, i + 1, combined, |combined|)
  }

  method StreamIntoBuffer(patterns: seq<Pattern>, stream: Stream) returns (r: Streamed)
    ensures r == StreamFrom(patterns, stream, 0, "", 0)
  {
    var buffer: string, scanned: nat, i: nat := "", 0, 0;
    while i < |stream.events|
      invariant i <= |stream.events| && scanned <= |buffer|
      invariant StreamFrom(patterns, stream, i, buffer, scanned) == StreamFrom(patterns, stream, 0, "", 0)
    {
      match stream.events[i] {
        case Token(text) =>
          buffer := buffer + text;
          if |buffer| - scanned >= CHECK_INTERVAL {
            scanned := |buffer|;
            var hit := CheckStream(patterns, buffer);
            if hit.Some? { return Cancelled(hit.value); }
          }
        case Completed => return Buffered(buffer);
        case Failed(kind) => return StreamFailed(kind);
        case OtherEvent =>
      }
      i := i + 1;
    }
    return if stream.raises then StreamRaised else Buffered(buffer);
  }

  /** A scanned beginning of a text that leaves less than one interval unscanned. */
  ghost predicate ScannedUpTo(patterns: seq<Pattern>, text: string, n: nat) {
    && n <= |text| && |text| - n < CHECK_INTERVAL
    && (n > 0 ==> CheckStream(patterns, text[..n]).None?)
  }

  /** A buffered text has been scanned up to its last 49 characters at most. */
  lemma {:induction false} BufferedIsScanned(
      patterns: seq<Pattern>, stream: Stream, i: nat, buffer: string, scanned: nat)
    requires i <= |stream.events| && ScannedUpTo(patterns, buffer, scanned)
    ensures var r := StreamFrom(patterns, stream, i, buffer, scanned);
            r.Buffered? ==> exists n: nat :: ScannedUpTo(patterns, r.text, n)
    decreases |stream.events| - i
  {
    if i < |stream.events| {
      match stream.events[i]
      case Token(text) =>
        var combined := buffer + text;
        assert combined[..scanned] == buffer[..scanned];
        assert combined[..|combined|] == combined;
        if |combined| - scanned < CHECK_INTERVAL {
          BufferedIsScanned(patterns, stream, i + 1, combined, scanned);
        } else if CheckStream(patterns, combined).None? {
          BufferedIsScanned(patterns, stream, i + 1, combined, |combined|);
        }
      case OtherEvent => BufferedIsScanned(patterns, stream, i + 1, buffer, scanned);
      case _ =>
    }
  }

  /** The text of the first `n` events. */
  function TextOf(events: seq<StreamEvent>, n: nat): string
    requires n <= |events|
  {
    if n == 0 then "" else TextOf(events, n - 1) + if events[n - 1].Token? then events[n - 1].text else ""
  }

  /** Nothing before event `n` ends the stream. */
  predicate RunsTo(events: seq<StreamEvent>, n: nat)
    requires n <= |events|
  {
    forall k :: 0 <= k < n ==> events[k].Token? || events[k].OtherEvent?
  }

  /** The stream comes to its end or to the first event that completes or fails it; a hit is in the text so far. */
  lemma {:induction false} StreamEnds(patterns: seq<Pattern>, stream: Stream, i: nat, scanned: nat) returns (n: nat)
    requires i <= |stream.events| && RunsTo(stream.events, i) && scanned <= |TextOf(stream.events, i)|
    ensures i <= n <= |stream.events|
    ensures match StreamFrom(patterns, stream, i, TextOf(stream.events, i), scanned)
            case Buffered(text) =>
              && RunsTo(stream.events, n) && text == TextOf(stream.events, n)
              && if n < |stream.events| then stream.events[n] == Completed else !stream.raises
            case StreamFailed(kind) =>
              RunsTo(stream.events, n) && n < |stream.events| && stream.events[n] == Failed(kind)
            case StreamRaised => RunsTo(stream.events, n) && n == |stream.events| && stream.raises
            case Cancelled(hit) =>
              && RunsTo(stream.events, n) && |TextOf(stream.events, n)| >= 50
              && CheckStream(patterns, TextOf(stream.events, n)) == Some(hit)
    decreases |stream.events| - i
  {
    n := i;
    if i < |stream.events| {
      match stream.events[i]
      case Token(text) =>
        var combined := TextOf(stream.events, i + 1);
        if |combined| - scanned < CHECK_INTERVAL {
          n := StreamEnds(patterns, stream, i + 1, scanned);
        } else if CheckStream(patterns, combined).None? {
          n := StreamEnds(patterns, stream, i + 1, |combined|);
        } else {
          n := i + 1;
        }
      case OtherEvent =>
        assert TextOf(stream.events, i + 1) == TextOf(stream.events, i) + "" == TextOf(stream.events, i);
        n := StreamEnds(patterns, stream, i + 1, scanned);
      case _ =>
    }
  }

  // ---------------------------------------------------------------- one attempt

  /** How an attempt ends: for good, rejected (retried while rewrites are left), or accepted. */
  datatype Trial =
    | Stopped(reason: string)
    | Rejected(kind: string, policyRef: string, reason: string, exhausted: string)
    | Accepted(narration: string)

  function NarrationOf(guard: Guard, text: string): string {
    var stripped := Text.Strip(text);
    if stripped == "" then guard.fallbackText else stripped
  }

  function Joined(parts: seq<string>): string {
    if parts == [] then "" else if |parts| == 1 then parts[0] else parts[0] + "; " + Joined(parts[1..])
  }

  function Judged(s: Scene, a: Attempt, narration: string): Trial {
    match ScanGeneratedProse(s.guard, a.classify, narration)
    case Blocked(term, reason) => Rejected("fallback", term, reason, "post_gate_exhausted")
    case Rewrite(term, reason) => Rejected("post_gate_rewrite", term, reason, "rewrite_exhausted")
    case Allowed =>
      if s.hasChecks && s.audit(narration) != [] then
        Rejected("post_gate_rewrite", "mechanical_consistency", "audit violations: " + Joined(s.audit(narration)),
                 "mechanics_exhausted")
      else Accepted(narration)
  }

  function TrialOf(s: Scene, a: Attempt): Trial {
    if a.overBudget then Stopped("budget_stop")
    else
      match StreamFrom(s.guard.patterns, a.stream, 0, "", 0)
      case StreamFailed(kind) => Stopped("stream_failed:" + kind)
      case StreamRaised => Stopped("stream_exception")
      case Cancelled(hit) =>
        Rejected("fallback", hit.term, "inline hard-limit match: " + hit.matched, "inline_exhausted")
      case Buffered(text) => Judged(s, a, NarrationOf(s.guard, text))
  }

  // ---------------------------------------------------------------- resolved beats

  predicate IsResolved(s: Scene, narration: string, beat: string) {
    var words := s.longWords(beat);
    if words == {} then |narration| > 100
    else
      var needed := if |words| / 3 > 1 then |words| / 3 else 1;
      |set w | w in words && Text.Contains(s.lower(narration), w)| >= needed
  }

  /** A beat without long words needs a long narration; another needs a third of its words in it, and at least one. */
  lemma BeatResolved(s: Scene, narration: string, beat: string)
    ensures var words := s.longWords(beat);
            var found := set w | w in words && Text.Contains(s.lower(narration), w);
            IsResolved(s, narration, beat) <==>
            if words == {} then |narration| > 100 else found != {} && |found| >= |words| / 3
  {
  }

  /** Beats and ids are paired up to the shorter list. */
  function Paired(s: Scene): nat {
    if |s.beats| < |s.beatIds| then |s.beats| else |s.beatIds|
  }

  function MatchedBeats(s: Scene, narration: string, n: nat): seq<string>
    requires n <= Paired(s)
  {
    if n == 0 then []
    else MatchedBeats(s, narration, n - 1) + if IsResolved(s, narration, s.beats[n - 1]) then [s.beatIds[n - 1]] else []
  }

  function ResolvedBeats(s: Scene, narration: string): seq<string> {
    var matched := MatchedBeats(s, narration, Paired(s));
    if matched == [] && s.beatIds != [] && |narration| > 100 then [s.beatIds[0]] else matched
  }

  method DetectResolvedBeats(s: Scene, narration: string) returns (resolved: seq<string>)
    ensures resolved == ResolvedBeats(s, narration)
  {
    resolved := [];
    if s.beatIds == [] { return; }
    for i := 0 to Paired(s)
      invariant resolved == MatchedBeats(s, narration, i)
    {
      var words := s.longWords(s.beats[i]);
      if words == {} {
        if |narration| > 100 { resolved := resolved + [s.beatIds[i]]; }
        continue;
      }
      var matches := |set w | w in words && Text.Contains(s.lower(narration), w)|;
      if matches >= (if |words| / 3 > 1 then |words| / 3 else 1) { resolved := resolved + [s.beatIds[i]]; }
    }
    if resolved == [] && |narration| > 100 { resolved := [s.beatIds[0]]; }
  }

  lemma {:induction false} MatchedAre(s: Scene, narration: string, n: nat, id: string)
    requires n <= Paired(s)
    ensures id in MatchedBeats(s, narration, n)
            <==> exists i :: 0 <= i < n && s.beatIds[i] == id && IsResolved(s, narration, s.beats[i])
  {
    if n > 0 { MatchedAre(s, narration, n - 1, id); }
  }

  /**
   A resolved id belongs to a matching beat; only a long narration that matches no beat resolves
   the first one instead, so that a long narration always makes progress.
   */
  lemma ResolvedBeatsAre(s: Scene, narration: string, id: string)
    ensures var r := ResolvedBeats(s, narration);
            && (s.beatIds != [] && |narration| > 100 ==> r != [])
            && (id in r ==> id in s.beatIds)
            && ((exists i :: 0 <= i < Paired(s) && s.beatIds[i] == id && IsResolved(s, narration, s.beats[i]))
                ==> id in r)
            && (id in r ==>
                  || (exists i :: 0 <= i < Paired(s) && s.beatIds[i] == id && IsResolved(s, narration, s.beats[i]))
                  || (r == [s.beatIds[0]] && |narration| > 100))
  {
    MatchedAre(s, narration, Paired(s), id);
  }

  // ---------------------------------------------------------------- the ladder

  /** The first attempt from `k` on that is not rejected, or the last one. */
  function SettlesAt(s: Scene, k: nat): nat
    decreases s.guard.maxRewrites - k
  {
    if k < s.guard.maxRewrites && TrialOf(s, s.attempts(k)).Rejected? then SettlesAt(s, k + 1) else k
  }

  ghost predicate RejectedBefore(s: Scene, k: nat) {
    forall i :: 0 <= i < k ==> TrialOf(s, s.attempts(i)).Rejected?
  }

  function RejectionEvent(s: Scene, t: Trial, sequence: nat): SafetyEvent
    requires t.Rejected?
  {
    MakeEvent(s.turnId, t.kind, Some(t.policyRef), t.reason, sequence)
  }

  /** One event per rejected attempt, numbered by the attempt. */
  function Rejections(s: Scene, k: nat): (r: seq<SafetyEvent>)
    requires RejectedBefore(s, k)
    ensures |r| == k
    ensures forall i :: 0 <= i < k ==> r[i] == RejectionEvent(s, TrialOf(s, s.attempts(i)), i)
  {
    seq(k, i requires 0 <= i < k => RejectionEvent(s, TrialOf(s, s.attempts(i)), i))
  }

  function FallbackResult(s: Scene, events: seq<SafetyEvent>, reason: string): RenderResult {
    RenderResult([s.guard.fallbackText], [], events + [MakeEvent(s.turnId, "fallback", None, reason, |events|)], true)
  }

  /** The result when attempt `k` settles the scene. */
  function ResultAt(s: Scene, k: nat): RenderResult
    requires RejectedBefore(s, k)
  {
    var events := Rejections(s, k);
    match TrialOf(s, s.attempts(k))
    case Stopped(reason) => FallbackResult(s, events, reason)
    case Accepted(narration) => RenderResult([narration], ResolvedBeats(s, narration), events, false)
    case Rejected(kind, policyRef, reason, exhausted) =>
      FallbackResult(s, events + [MakeEvent(s.turnId, kind, Some(policyRef), reason, k)], exhausted)
  }

  lemma {:induction false} SettlesFirst(s: Scene, k: nat)
    requires k <= s.guard.maxRewrites && RejectedBefore(s, k)
    ensures k <= SettlesAt(s, k) <= s.guard.maxRewrites && RejectedBefore(s, SettlesAt(s, k))
    ensures !TrialOf(s, s.attempts(SettlesAt(s, k))).Rejected? || SettlesAt(s, k) == s.guard.maxRewrites
    decreases s.guard.maxRewrites - k
  {
    if k < s.guard.maxRewrites && TrialOf(s, s.attempts(k)).Rejected? { SettlesFirst(s, k + 1); }
  }

  lemma {:induction false} SettlesHere(s: Scene, k: nat)
    requires k <= s.guard.maxRewrites && RejectedBefore(s, k)
    requires k == s.guard.maxRewrites || !TrialOf(s, s.attempts(k)).Rejected?
    ensures SettlesAt(s, 0) == k
  {
    var i := k;
    while i > 0
      invariant 0 <= i <= k && SettlesAt(s, i) == k
    {
      i := i - 1;
    }
  }

  /** One attempt of the ladder, step by step; `rejected` asks for the next attempt or the exhausted fallback. */
  method TryAttempt(s: Scene, attempt: nat) returns (t: Trial)
    ensures t == TrialOf(s, s.attempts(attempt))
  {
    var a := s.attempts(attempt);
    if a.overBudget { return Stopped("budget_stop"); }
    var streamed := StreamIntoBuffer(s.guard.patterns, a.stream);
    match streamed {
      case StreamFailed(kind) => return Stopped("stream_failed:" + kind);
      case StreamRaised => return Stopped("stream_exception");
      case Cancelled(hit) =>
        return Rejected("fallback", hit.term, "inline hard-limit match: " + hit.matched, "inline_exhausted");
      case Buffered(text) =>
        var narration := Text.Strip(text);
        if narration == "" { narration := s.guard.fallbackText; }
        return Judged(s, a, narration);
    }
  }

  /**
   Renders a scene. `attempts` counts the attempts entered: the scene settles at the first attempt
   that is not rejected, or at the last one, and each attempt is entered with one event per
   earlier attempt.
   */
  method RenderScene(s: Scene, hasClient: bool) returns (r: RenderResult, attempts: nat)
    ensures !hasClient ==> attempts == 0 && r == RenderResult([s.guard.fallbackText], [], [], true)
    ensures hasClient ==> 1 <= attempts <= s.guard.maxRewrites + 1 && attempts == SettlesAt(s, 0) + 1
    ensures hasClient ==> RejectedBefore(s, SettlesAt(s, 0)) && r == ResultAt(s, SettlesAt(s, 0))
    ensures hasClient && s.guard.Valid() ==> Renders(s, attempts - 1, r)
  {
    attempts := 0;
    if !hasClient { return RenderResult([s.guard.fallbackText], [], [], true), 0; }
    var events: seq<SafetyEvent> := [];
    while attempts < s.guard.maxRewrites + 1
      invariant attempts <= s.guard.maxRewrites && RejectedBefore(s, attempts)
      invariant |events| == attempts && events == Rejections(s, attempts)
    {
      var attempt := attempts;
      attempts := attempts + 1;
      var t := TryAttempt(s, attempt);
      match t {
        case Stopped(reason) =>
          SettledHere(s, attempt);
          return FallbackResult(s, events, reason), attempts;
        case Accepted(narration) =>
          SettledHere(s, attempt);
          var resolved := DetectResolvedBeats(s, narration);
          return RenderResult([narration], resolved, events, false), attempts;
        case Rejected(kind, policyRef, reason, exhausted) =>
          events := events + [MakeEvent(s.turnId, kind, Some(policyRef), reason, |events|)];
          if ShouldRetry(s.guard, attempt) { continue; }
          SettledHere(s, attempt);
          return FallbackResult(s, events, exhausted), attempts;
      }
    }
    assert false;
  }

  // ---------------------------------------------------------------- the ladder, attempt by attempt

  function StreamOf(s: Scene, a: Attempt): Streamed {
    StreamFrom(s.guard.patterns, a.stream, 0, "", 0)
  }

  /** The text is free of hard limits, the classifier allows it, and the audit of check results finds nothing. */
  ghost predicate Passes(s: Scene, a: Attempt, narration: string) {
    && (s.guard.anyLimits ==>
          (forall p :: p in s.guard.patterns ==> p.search(narration).None?) && a.classify(narration) == Allowed)
    && (s.hasChecks ==> s.audit(narration) == [])
  }

  /** What the attempt would show: its stripped text, or the fallback text for a blank one. */
  ghost predicate Says(s: Scene, a: Attempt, narration: string) {
    && StreamOf(s, a).Buffered?
    && narration == var text := Text.Strip(StreamOf(s, a).text); if text == "" then s.guard.fallbackText else text
  }

  /** The attempt ends the scene: it is over budget, or its stream fails or raises. */
  ghost predicate Breaks(s: Scene, a: Attempt) {
    a.overBudget || StreamOf(s, a).StreamFailed? || StreamOf(s, a).StreamRaised?
  }

  /** The attempt is within budget, but hits a hard limit while it streams or says what does not pass. */
  ghost predicate Fails(s: Scene, a: Attempt) {
    && !a.overBudget
    && (StreamOf(s, a).Cancelled? || exists narration :: Says(s, a, narration) && !Passes(s, a, narration))
  }

  /** The attempt is within budget and says this, which passes. */
  ghost predicate Succeeds(s: Scene, a: Attempt, narration: string) {
    !a.overBudget && Says(s, a, narration) && Passes(s, a, narration)
  }

  lemma TrialFails(s: Scene, a: Attempt)
    requires s.guard.Valid()
    ensures TrialOf(s, a).Rejected? <==> Fails(s, a)
    ensures TrialOf(s, a).Stopped? <==> Breaks(s, a)
    ensures TrialOf(s, a).Accepted? ==> Succeeds(s, a, TrialOf(s, a).narration)
    ensures forall narration :: Succeeds(s, a, narration) ==> TrialOf(s, a) == Accepted(narration)
  {
    if StreamOf(s, a).Buffered? {
      var narration := NarrationOf(s.guard, StreamOf(s, a).text);
      assert Says(s, a, narration);
      CheckStreamClean(s.guard.patterns, narration);
    }
  }

  /**
   The result of a scene that ends with attempt `k`: all earlier attempts fail, and either this one
   ends the scene, or it succeeds and is shown, or it fails too and is the last one allowed.
   */
  ghost predicate Renders(s: Scene, k: nat, r: RenderResult) {
    && k <= s.guard.maxRewrites && (forall i :: 0 <= i < k ==> Fails(s, s.attempts(i)))
    && (Breaks(s, s.attempts(k)) || Fails(s, s.attempts(k)) || exists n :: Succeeds(s, s.attempts(k), n))
    && (Breaks(s, s.attempts(k)) ==>
          r.usedFallback && r.narration == [s.guard.fallbackText] && r.resolvedBeats == [] && |r.events| == k + 1)
    && (Fails(s, s.attempts(k)) ==>
          && k == s.guard.maxRewrites && r.usedFallback && r.narration == [s.guard.fallbackText]
          && r.resolvedBeats == [] && |r.events| == k + 2)
    && (forall n :: Succeeds(s, s.attempts(k), n) ==>
          !r.usedFallback && r.narration == [n] && r.resolvedBeats == ResolvedBeats(s, n) && |r.events| == k)
  }

  lemma SettledRenders(s: Scene, k: nat)
    requires s.guard.Valid() && k <= s.guard.maxRewrites && RejectedBefore(s, k)
    requires k == s.guard.maxRewrites || !TrialOf(s, s.attempts(k)).Rejected?
    ensures Renders(s, k, ResultAt(s, k))
  {
    forall i | 0 <= i < k ensures Fails(s, s.attempts(i)) { TrialFails(s, s.attempts(i)); }
    TrialFails(s, s.attempts(k));
  }

  lemma SettledHere(s: Scene, k: nat)
    requires k <= s.guard.maxRewrites && RejectedBefore(s, k)
    requires k == s.guard.maxRewrites || !TrialOf(s, s.attempts(k)).Rejected?
    ensures SettlesAt(s, 0) == k && (s.guard.Valid() ==> Renders(s, k, ResultAt(s, k)))
  {
    SettlesHere(s, k);
    if s.guard.Valid() { SettledRenders(s, k); }
  }

  /**
   So the attempts alone decide how many are made, up to the first that does not fail or the last
   one allowed, and what is shown.
   */
  lemma RendersOnce(s: Scene, k: nat, narration: string)
    requires s.guard.Valid() && k <= s.guard.maxRewrites && forall i :: 0 <= i < k ==> Fails(s, s.attempts(i))
    requires Succeeds(s, s.attempts(k), narration) || Breaks(s, s.attempts(k)) || k == s.guard.maxRewrites
    ensures SettlesAt(s, 0) == k && RejectedBefore(s, k)
    ensures Succeeds(s, s.attempts(k), narration) ==>
              ResultAt(s, k).narration == [narration] && !ResultAt(s, k).usedFallback
    ensures !Succeeds(s, s.attempts(k), narration) && (Breaks(s, s.attempts(k)) || Fails(s, s.attempts(k))) ==>
              ResultAt(s, k).narration == [s.guard.fallbackText] && ResultAt(s, k).usedFallback
  {
    forall i | 0 <= i < k ensures TrialOf(s, s.attempts(i)).Rejected? { TrialFails(s, s.attempts(i)); }
    TrialFails(s, s.attempts(k));
    SettlesHere(s, k);
  }

  /** Each rejected attempt leaves one event that says by which gate and for which term. */
  lemma RejectionSays(s: Scene, k: nat, i: nat)
    requires s.guard.Valid() && RejectedBefore(s, k) && i < k
    ensures var a, e := s.attempts(i), ResultAt(s, k).events[i];
            && |ResultAt(s, k).events| >= k && !a.overBudget
            && match StreamOf(s, a)
               case Cancelled(hit) =>
                 && e.kind == "fallback" && e.policyRef == Some(hit.term)
                 && e.action == Limit("inline hard-limit match: " + hit.matched, 200)
               case Buffered(_) =>
                 var narration := NarrationOf(s.guard, StreamOf(s, a).text);
                 var hit := CheckStream(s.guard.patterns, narration);
                 if s.guard.anyLimits && hit.Some? then e.kind == "fallback" && e.policyRef == Some(hit.value.term)
                 else if s.guard.anyLimits && a.classify(narration).Blocked? then
                   e.kind == "fallback" && e.policyRef == Some(a.classify(narration).term)
                 else if s.guard.anyLimits && a.classify(narration).Rewrite? then
                   e.kind == "post_gate_rewrite" && e.policyRef == Some(a.classify(narration).term)
                 else e.kind == "post_gate_rewrite" && e.policyRef == Some("mechanical_consistency")
               case _ => false
  {
    assert TrialOf(s, s.attempts(i)).Rejected?;
    assert ResultAt(s, k).events[i] == RejectionEvent(s, TrialOf(s, s.attempts(i)), i);
  }

  /** Why a fallback was shown: the last event says what ended the scene, or which gate failed last. */
  lemma FallbackReason(s: Scene, k: nat)
    requires s.guard.Valid() && RejectedBefore(s, k) && ResultAt(s, k).usedFallback
    ensures var a, events := s.attempts(k), ResultAt(s, k).events;
            && events != []
            && var why := events[|events| - 1].action;
               && (a.overBudget ==> why == "budget_stop")
               && (!a.overBudget ==>
                     match StreamOf(s, a)
                     case StreamFailed(kind) => why == Limit("stream_failed:" + kind, 200)
                     case StreamRaised => why == "stream_exception"
                     case Cancelled(_) => why == "inline_exhausted"
                     case Buffered(_) =>
                       var narration := NarrationOf(s.guard, StreamOf(s, a).text);
                       var hit := CheckStream(s.guard.patterns, narration);
                       why == if s.guard.anyLimits && (hit.Some? || a.classify(narration).Blocked?)
                                then "post_gate_exhausted"
                              else if s.guard.anyLimits && a.classify(narration).Rewrite? then "rewrite_exhausted"
                              else "mechanics_exhausted")
  {
  }

  // ---------------------------------------------------------------- what a result guarantees

  /** A narration that went through every gate of the attempt that produced it. */
  ghost predicate PassedGates(s: Scene, a: Attempt, narration: string) {
    && !a.overBudget
    && StreamFrom(s.guard.patterns, a.stream, 0, "", 0).Buffered?
    && narration == NarrationOf(s.guard, StreamFrom(s.guard.patterns, a.stream, 0, "", 0).text)
    && (forall p :: p in s.guard.patterns ==> p.search(narration).None?)
    && (s.guard.anyLimits ==> a.classify(narration) == Allowed)
    && (s.hasChecks ==> s.audit(narration) == [])
  }

  /** Without fallback the one narration passed the hard-limit scan, the classifier and the audit. */
  lemma NarrationPassed(s: Scene, k: nat)
    requires s.guard.Valid() && RejectedBefore(s, k) && !ResultAt(s, k).usedFallback
    ensures |ResultAt(s, k).narration| == 1 && PassedGates(s, s.attempts(k), ResultAt(s, k).narration[0])
    ensures TrialOf(s, s.attempts(k)).Accepted?
  {
    CheckStreamClean(s.guard.patterns, ResultAt(s, k).narration[0]);
  }

  /** A result without fallback shows the fallback text exactly when the stream was blank or said that text itself. */
  lemma FallbackTextShown(s: Scene, k: nat)
    requires s.guard.Valid() && RejectedBefore(s, k) && !ResultAt(s, k).usedFallback
    ensures var streamed := StreamFrom(s.guard.patterns, s.attempts(k).stream, 0, "", 0);
            && streamed.Buffered?
            && (ResultAt(s, k).narration == [s.guard.fallbackText]
                <==> Text.Strip(streamed.text) == "" || Text.Strip(streamed.text) == s.guard.fallbackText)
  {
    NarrationPassed(s, k);
  }

  /** A narration that passes every gate is accepted, and the text is shown unchanged. */
  lemma PassedIsShown(s: Scene, k: nat, narration: string)
    requires s.guard.Valid() && RejectedBefore(s, k) && PassedGates(s, s.attempts(k), narration)
    ensures ResultAt(s, k).narration == [narration] && !ResultAt(s, k).usedFallback
  {
    CheckStreamClean(s.guard.patterns, narration);
  }

  /** A fallback shows the fallback text alone, resolves no beat and says why in its last event. */
  lemma FallbackSaysWhy(s: Scene, k: nat)
    requires RejectedBefore(s, k) && ResultAt(s, k).usedFallback
    ensures var r := ResultAt(s, k);
            && r.narration == [s.guard.fallbackText] && r.resolvedBeats == [] && r.events != []
            && r.events[|r.events| - 1].kind == "fallback" && r.events[|r.events| - 1].policyRef == None
            && |r.events| == k + if TrialOf(s, s.attempts(k)).Stopped? then 1 else 2
  {
  }

  ghost predicate NumberedBy(turnId: string, e: SafetyEvent, i: nat) {
    e.id == ("safety_" + turnId + "_render_" + e.kind) + "_" + Text.Decimal(i)
  }

  /** Event `i` of a result carries number `i`. */
  lemma EventsNumbered(s: Scene, k: nat)
    requires RejectedBefore(s, k)
    ensures forall i :: 0 <= i < |ResultAt(s, k).events| ==> NumberedBy(s.turnId, ResultAt(s, k).events[i], i)
  {
  }

  /** The ids of the events of a result are pairwise different. */
  lemma EventIdsDiffer(s: Scene, k: nat, i: nat, j: nat)
    requires RejectedBefore(s, k) && i < j < |ResultAt(s, k).events|
    ensures ResultAt(s, k).events[i].id != ResultAt(s, k).events[j].id
  {
    var events := ResultAt(s, k).events;
    EventsNumbered(s, k);
    assert NumberedBy(s.turnId, events[i], i) && NumberedBy(s.turnId, events[j], j);
    NumberRead(s.turnId, events[i].kind, i);
    NumberRead(s.turnId, events[j].kind, j);
  }

  lemma NumberRead(turnId: string, kind: string, sequence: nat)
    ensures var digits := Text.AfterLast(EventId(turnId, kind, sequence), '_');
            Text.IsDigits(digits) && Text.Value(digits) == sequence
  {
    Text.SplitLast("safety_" + turnId + "_render_" + kind, '_', Text.Decimal(sequence));
    Text.ValueOfPadded(sequence, 1);
  }

  /** A shown narration was scanned while it streamed, up to its last 49 characters at most, and then as a whole. */
  lemma StreamedTextScanned(s: Scene, k: nat)
    requires RejectedBefore(s, k) && !ResultAt(s, k).usedFallback
    ensures var streamed := StreamFrom(s.guard.patterns, s.attempts(k).stream, 0, "", 0);
            streamed.Buffered? && exists n: nat :: ScannedUpTo(s.guard.patterns, streamed.text, n)
  {
    BufferedIsScanned(s.guard.patterns, s.attempts(k).stream, 0, "", 0);
  }
}
