/** The wikilinks of a page body, `[[target]]` or `[[target|label]]`, and how they survive being read from disk. */
module Wikilinks {
  import opened Basics
  import Newlines
  import Text

  /** The longest beginning without `]`, and without `|` either when `bar` is set. */
  function Span(s: string, bar: bool): (r: string)
    ensures r <= s
  {
    if s == "" || s[0] == ']' || (bar && s[0] == '|') then "" else [s[0]] + Span(s[1..], bar)
  }

  datatype Link = Link(target: string, rest: string)

  /** What follows the target: the closing brackets, or a label and then the closing brackets. */
  function Closed(target: string, s: string): (r: Option<Link>)
    ensures r.Some? ==> r.value.target == target && |r.value.rest| < |s|
  {
    if s != "" && s[0] == '|' then
      var caption := Span(s[1..], false);
      var end := s[1..][|caption|..];
      if caption != "" && "]]" <= end then Some(Link(target, end[2..])) else None
    else if "]]" <= s then Some(Link(target, s[2..]))
    else None
  }

  /** The link that starts at the beginning of `s`, and what follows it. */
  function LinkAt(s: string): (r: Option<Link>)
    ensures r.Some? ==> |r.value.rest| < |s|
  {
    if !("[[" <= s) then None
    else
      var target := Span(s[2..], true);
      if target == "" then None else Closed(target, s[2..][|target|..])
  }

  /** Every link from left to right, without overlaps. */
  function FindLinks(s: string): seq<string> {
    if s == "" then []
    else match LinkAt(s)
         case Some(link) => [link.target] + FindLinks(link.rest)
         case None => FindLinks(s[1..])
  }

  /** The targets after stripping, blank ones left out. */
  function Targets(links: seq<string>): seq<string> {
    if links == [] then []
    else (if Text.Strip(links[0]) == "" then [] else [Text.Strip(links[0])]) + Targets(links[1..])
  }

  lemma {:induction false} TargetsAre(links: seq<string>, target: string)
    ensures target in Targets(links) <==> target != "" && exists i :: 0 <= i < |links| && Text.Strip(links[i]) == target
  {
    if links != [] {
      TargetsAre(links[1..], target);
      if i :| 0 <= i < |links| && Text.Strip(links[i]) == target { assert i > 0 ==> links[1..][i - 1] == links[i]; }
    }
  }

  // ---------------------------------------------------------------- newlines

  function Normalized(texts: seq<string>): (r: seq<string>)
    ensures |r| == |texts| && forall i :: 0 <= i < |r| ==> r[i] == Newlines.Normalize(texts[i])
  {
    seq(|texts|, i requires 0 <= i < |texts| => Newlines.Normalize(texts[i]))
  }

  lemma NormalizedCons(t: string, rest: seq<string>)
    ensures Normalized([t] + rest) == [Newlines.Normalize(t)] + Normalized(rest)
  {
  }

  predicate Stops(c: char, bar: bool) {
    c == ']' || (bar && c == '|')
  }

  lemma {:induction false} SpanFree(s: string, bar: bool, c: char)
    requires c in Span(s, bar)
    ensures !Stops(c, bar)
  {
    if c != s[0] {
      assert c in Span(s[1..], bar);
      SpanFree(s[1..], bar, c);
    }
  }

  lemma {:induction false} SpanRest(s: string, bar: bool)
    ensures var rest := s[|Span(s, bar)|..]; rest == "" || Stops(rest[0], bar)
  {
    if s != "" && !Stops(s[0], bar) {
      SpanRest(s[1..], bar);
      assert s[|Span(s, bar)|..] == s[1..][|Span(s[1..], bar)|..];
    }
  }

  lemma {:induction false} SpanIs(a: string, rest: string, bar: bool)
    requires forall c :: c in a ==> !Stops(c, bar)
    requires rest == "" || Stops(rest[0], bar)
    ensures Span(a + rest, bar) == a
  {
    if a == "" {
      assert a + rest == rest;
    } else {
      assert (a + rest)[1..] == a[1..] + rest && a[0] in a;
      SpanIs(a[1..], rest, bar);
      assert a == [a[0]] + a[1..];
    }
  }

  lemma {:induction false} NormalizeJoin(a: string, rest: string)
    requires rest == "" || rest[0] != '\n'
    ensures Newlines.Normalize(a + rest) == Newlines.Normalize(a) + Newlines.Normalize(rest)
  {
    if a == "" {
      assert a + rest == rest;
    } else {
      assert (a + rest)[1..] == a[1..] + rest;
      NormalizeJoin(a[1..], rest);
    }
  }

  lemma {:induction false} NormalizeAddsNothing(s: string, c: char)
    requires c in Newlines.Normalize(s) && c != '\n'
    ensures c in s
  {
    if !(|s| > 1 && s[0] == '\r' && s[1] == '\n') && c == Newlines.OneNewline(s[0]) {
      assert c == s[0];
    } else {
      NormalizeAddsNothing(s[1..], c);
    }
  }

  lemma SpanNormalize(s: string, bar: bool)
    ensures Span(Newlines.Normalize(s), bar) == Newlines.Normalize(Span(s, bar))
    ensures Newlines.Normalize(s)[|Span(Newlines.Normalize(s), bar)|..] == Newlines.Normalize(s[|Span(s, bar)|..])
  {
    var a, rest := Span(s, bar), s[|Span(s, bar)|..];
    SpanRest(s, bar);
    assert s == a + rest;
    NormalizeJoin(a, rest);
    forall c | c in Newlines.Normalize(a) ensures !Stops(c, bar) {
      if c != '\n' {
        NormalizeAddsNothing(a, c);
        SpanFree(s, bar, c);
      }
    }
    if rest != "" {
      NormalizeKeeps(rest[1..], rest[0]);
      assert rest == [rest[0]] + rest[1..];
    }
    SpanIs(Newlines.Normalize(a), Newlines.Normalize(rest), bar);
  }

  lemma NormalizeKeeps(s: string, c: char)
    requires c != '\r' && c != '\n'
    ensures Newlines.Normalize([c] + s) == [c] + Newlines.Normalize(s)
    ensures s != "" ==> ((s[0] == c) <==> (Newlines.Normalize(s) != "" && Newlines.Normalize(s)[0] == c))
    ensures s == "" <==> Newlines.Normalize(s) == ""
  {
    assert ([c] + s)[1..] == s;
    if |s| > 1 && s[0] == '\r' && s[1] == '\n' { assert Newlines.Normalize(s) == Newlines.Normalize(s[1..]); }
  }

  /** A doubled bracket survives, and nothing else becomes one. */
  lemma BracketsNormalize(s: string, c: char)
    requires c == '[' || c == ']'
    ensures [c, c] <= s <==> [c, c] <= Newlines.Normalize(s)
    ensures [c, c] <= s ==> Newlines.Normalize(s)[2..] == Newlines.Normalize(s[2..])
  {
    NormalizeKeeps(s, c);
    if s != "" && s[0] == c {
      var t := s[1..];
      assert s == [c] + t;
      NormalizeKeeps(t, c);
      if t != "" && t[0] == c {
        assert t == [c] + t[1..];
        NormalizeKeeps(t[1..], c);
      }
    }
  }

  function NormalizedLink(link: Option<Link>): Option<Link> {
    match link
    case Some(l) => Some(Link(Newlines.Normalize(l.target), Newlines.Normalize(l.rest)))
    case None => None
  }

  lemma ClosingNormalize(target: string, s: string)
    ensures (if "]]" <= Newlines.Normalize(s)
             then Some(Link(Newlines.Normalize(target), Newlines.Normalize(s)[2..])) else None)
            == NormalizedLink(if "]]" <= s then Some(Link(target, s[2..])) else None)
  {
    assert "]]" == [']', ']'];
    BracketsNormalize(s, ']');
  }

  lemma ClosedNormalize(target: string, s: string)
    ensures Closed(Newlines.Normalize(target), Newlines.Normalize(s)) == NormalizedLink(Closed(target, s))
  {
    NormalizeKeeps(s, '|');
    if s != "" && s[0] == '|' {
      var t := s[1..];
      assert s == ['|'] + t;
      NormalizeKeeps(t, '|');
      SpanNormalize(t, false);
      NormalizeKeeps(Span(t, false), '|');
      ClosingNormalize(target, t[|Span(t, false)|..]);
    } else {
      ClosingNormalize(target, s);
    }
  }

  lemma LinkAtNormalize(s: string)
    ensures LinkAt(Newlines.Normalize(s)) == NormalizedLink(LinkAt(s))
  {
    assert "[[" == ['[', '['];
    BracketsNormalize(s, '[');
    if "[[" <= s {
      var t := s[2..];
      SpanNormalize(t, true);
      NormalizeKeeps(Span(t, true), '|');
      ClosedNormalize(Span(t, true), t[|Span(t, true)|..]);
    }
  }

  /** Reading the newlines of a body reads the newlines of its links. */
  lemma {:induction false} LinksNormalize(s: string)
    ensures FindLinks(Newlines.Normalize(s)) == Normalized(FindLinks(s))
    decreases |s|
  {
    if s != "" {
      LinkAtNormalize(s);
      NormalizeKeeps(s, '|');
      match LinkAt(s)
      case Some(link) =>
        LinksNormalize(link.rest);
        NormalizedCons(link.target, FindLinks(link.rest));
      case None =>
        LinksNormalize(s[1..]);
        if |s| > 1 && s[0] == '\r' && s[1] == '\n' {
          assert Newlines.Normalize(s) == Newlines.Normalize(s[1..]);
        } else {
          assert Newlines.Normalize(s)[1..] == Newlines.Normalize(s[1..]);
        }
    }
  }

  // ---------------------------------------------------------------- what a link looks like

  /** A label without closing bracket, after a bar. */
  function LabelText(caption: Option<string>): string {
    match caption case Some(text) => "|" + text case None => ""
  }

  ghost predicate IsTarget(target: string) {
    target != "" && forall c :: c in target ==> c != ']' && c != '|'
  }

  ghost predicate IsLabel(caption: Option<string>) {
    caption.Some? ==> caption.value != "" && ']' !in caption.value
  }

  /** A link as it is written, with or without a label. */
  function Written(target: string, caption: Option<string>): string {
    "[[" + target + LabelText(caption) + "]]"
  }

  lemma ClosedIs(target: string, caption: Option<string>, post: string)
    requires IsLabel(caption)
    ensures Closed(target, LabelText(caption) + "]]" + post) == Some(Link(target, post))
  {
    match caption
    case Some(text) =>
      var rest := "]]" + post;
      var s := "|" + text + rest;
      assert "|" + text + "]]" + post == s;
      assert s[1..] == text + rest;
      SpanIs(text, rest, false);
      assert s[1..][|text|..] == rest;
    case None => assert "" + "]]" + post == "]]" + post;
  }

  lemma LinkAtIs(target: string, caption: Option<string>, post: string)
    requires IsTarget(target) && IsLabel(caption)
    ensures LinkAt(Written(target, caption) + post) == Some(Link(target, post))
  {
    var rest := LabelText(caption) + "]]" + post;
    var s := Written(target, caption) + post;
    assert s == "[[" + target + rest;
    assert s[2..] == target + rest;
    SpanIs(target, rest, true);
    assert s[2..][|target|..] == rest;
    ClosedIs(target, caption, post);
  }

  /** A written link is found behind any text without brackets, and the search goes on behind it. */
  lemma {:induction false} WrittenLinkIsFound(pre: string, target: string, caption: Option<string>, post: string)
    requires '[' !in pre && IsTarget(target) && IsLabel(caption)
    ensures FindLinks(pre + Written(target, caption) + post) == [target] + FindLinks(post)
  {
    var s := pre + Written(target, caption) + post;
    if pre == "" {
      assert s == Written(target, caption) + post;
      LinkAtIs(target, caption, post);
    } else {
      assert s[0] == pre[0] && s[1..] == pre[1..] + Written(target, caption) + post;
      WrittenLinkIsFound(pre[1..], target, caption, post);
    }
  }

  lemma ClosedWritten(target: string, t: string) returns (caption: Option<string>)
    requires Closed(target, t).Some?
    ensures IsLabel(caption) && t == LabelText(caption) + "]]" + Closed(target, t).value.rest
  {
    if t[0] == '|' {
      var text := Span(t[1..], false);
      var end := t[1..][|text|..];
      if ']' in text { SpanFree(t[1..], false, ']'); }
      caption := Some(text);
      assert t == "|" + t[1..] && t[1..] == text + end && end == "]]" + end[2..];
    } else {
      caption := None;
    }
  }

  lemma LinkAtWritten(s: string) returns (caption: Option<string>)
    requires LinkAt(s).Some?
    ensures IsTarget(LinkAt(s).value.target) && IsLabel(caption)
    ensures s == Written(LinkAt(s).value.target, caption) + LinkAt(s).value.rest
  {
    var target := Span(s[2..], true);
    var t := s[2..][|target|..];
    forall c | c in target ensures c != ']' && c != '|' { SpanFree(s[2..], true, c); }
    caption := ClosedWritten(target, t);
    Regrouped(s, "[[", target, LabelText(caption), "]]", LinkAt(s).value.rest);
  }

  lemma Regrouped(s: string, a: string, b: string, c: string, d: string, rest: string)
    requires a <= s && b <= s[|a|..] && s[|a|..][|b|..] == c + d + rest
    ensures s == a + b + c + d + rest
  {
    assert s == a + s[|a|..] && s[|a|..] == b + s[|a|..][|b|..];
  }

  ghost predicate StandsIn(target: string, s: string) {
    IsTarget(target) && exists pre, caption, post :: IsLabel(caption) && s == pre + (Written(target, caption) + post)
  }

  lemma StandsBehind(target: string, s: string, head: string)
    requires StandsIn(target, s)
    ensures StandsIn(target, head + s)
  {
    var pre, caption, post :| IsLabel(caption) && s == pre + (Written(target, caption) + post);
    var link := Written(target, caption) + post;
    assert head + (pre + link) == (head + pre) + link;
  }

  lemma StandsFirst(s: string)
    requires LinkAt(s).Some?
    ensures StandsIn(LinkAt(s).value.target, s)
    ensures exists head :: s == head + LinkAt(s).value.rest
  {
    var caption := LinkAtWritten(s);
    var link := Written(LinkAt(s).value.target, caption) + LinkAt(s).value.rest;
    assert s == "" + link;
  }

  /** Every link found stands in the text as a written link. */
  lemma {:induction false} FoundLinkIsWritten(s: string, target: string)
    requires target in FindLinks(s)
    ensures StandsIn(target, s)
    decreases |s|
  {
    match LinkAt(s)
    case Some(link) =>
      StandsFirst(s);
      if target != link.target {
        FoundLinkIsWritten(link.rest, target);
        var head :| s == head + link.rest;
        StandsBehind(target, link.rest, head);
      }
    case None =>
      FoundLinkIsWritten(s[1..], target);
      StandsBehind(target, s[1..], s[..1]);
      assert s == s[..1] + s[1..];
  }

  // ---------------------------------------------------------------- stripping

  lemma {:induction false} SpanSnoc(s: string, c: char, bar: bool)
    requires c != ']' && c != '|'
    ensures Span(s + [c], bar) == if Span(s, bar) == s then s + [c] else Span(s, bar)
  {
    if s == "" {
      assert [c][1..] == "";
    } else {
      assert (s + [c])[1..] == s[1..] + [c];
      SpanSnoc(s[1..], c, bar);
      assert s == [s[0]] + s[1..];
    }
  }

  lemma ClosingSnoc(s: string, c: char)
    requires c != ']'
    ensures "]]" <= s + [c] <==> "]]" <= s
    ensures "]]" <= s ==> (s + [c])[2..] == s[2..] + [c]
  {
    if "]]" <= s + [c] { assert (s + [c])[0] == ']' && (s + [c])[1] == ']'; }
  }

  lemma ClosedSnoc(target: string, s: string, c: char)
    requires Text.IsSpace(c)
    ensures Closed(target, s + [c]) ==
            match Closed(target, s) case Some(l) => Some(Link(l.target, l.rest + [c])) case None => None
  {
    if s != "" && s[0] == '|' {
      var t := s[1..];
      assert (s + [c])[1..] == t + [c];
      SpanSnoc(t, c, false);
      if Span(t, false) != t {
        var end := t[|Span(t, false)|..];
        assert (t + [c])[|Span(t, false)|..] == end + [c];
        ClosingSnoc(end, c);
      } else {
        assert (t + [c])[|t| + 1..] == "" && t[|t|..] == "";
      }
    } else {
      ClosingSnoc(s, c);
    }
  }

  lemma LinkAtSnoc(s: string, c: char)
    requires Text.IsSpace(c)
    ensures LinkAt(s + [c]) ==
            match LinkAt(s) case Some(l) => Some(Link(l.target, l.rest + [c])) case None => None
  {
    if "[[" <= s {
      var t := s[2..];
      assert (s + [c])[2..] == t + [c];
      SpanSnoc(t, c, true);
      if Span(t, true) != t {
        assert (t + [c])[|Span(t, true)|..] == t[|Span(t, true)|..] + [c];
        ClosedSnoc(Span(t, true), t[|Span(t, true)|..], c);
      } else {
        assert (t + [c])[|t| + 1..] == "" && t[|t|..] == "";
      }
    }
  }

  lemma {:induction false} LinksSnoc(s: string, c: char)
    requires Text.IsSpace(c)
    ensures FindLinks(s + [c]) == FindLinks(s)
    decreases |s|
  {
    LinkAtSnoc(s, c);
    if s == "" {
      assert [c][1..] == "";
    } else {
      match LinkAt(s)
      case Some(link) => LinksSnoc(link.rest, c);
      case None =>
        assert (s + [c])[1..] == s[1..] + [c];
        LinksSnoc(s[1..], c);
    }
  }

  lemma {:induction false} LinksStripLeft(s: string)
    ensures FindLinks(Text.StripLeft(s)) == FindLinks(s)
  {
    if s != "" && Text.IsSpace(s[0]) { LinksStripLeft(s[1..]); }
  }

  lemma {:induction false} LinksStripRight(s: string)
    ensures FindLinks(Text.StripRight(s)) == FindLinks(s)
    decreases |s|
  {
    if s != "" && Text.IsSpace(s[|s| - 1]) {
      var front, c := s[..|s| - 1], s[|s| - 1];
      assert s == front + [c];
      LinksSnoc(front, c);
      LinksStripRight(front);
      assert Text.StripRight(s) == Text.StripRight(front);
    } else {
      assert Text.StripRight(s) == s;
    }
  }

  // ---------------------------------------------------------------- reading back

  lemma {:induction false} TargetsNormalize(links: seq<string>)
    ensures Targets(Normalized(links)) == Normalized(Targets(links))
  {
    if links != [] {
      var l, rest := links[0], links[1..];
      assert links == [l] + rest;
      NormalizedCons(l, rest);
      TargetsNormalize(rest);
      Newlines.StripNormalize(l);
      NormalizeKeeps(Text.Strip(l), '|');
      NormalizedCons(Text.Strip(l), Targets(rest));
    }
  }

  /** The links of a body as a reader of its file finds them: newlines read, white space stripped. */
  lemma TargetsReadBack(body: string)
    ensures Targets(FindLinks(Text.Strip(Newlines.Normalize(body)))) == Normalized(Targets(FindLinks(body)))
  {
    var n := Newlines.Normalize(body);
    LinksStripLeft(n);
    LinksStripRight(Text.StripLeft(n));
    LinksNormalize(body);
    TargetsNormalize(FindLinks(body));
  }

  /** They are the links that were written exactly when no target holds a carriage return. */
  lemma TargetsReadBackExactly(body: string)
    ensures Targets(FindLinks(Text.Strip(Newlines.Normalize(body)))) == Targets(FindLinks(body))
            <==> forall t :: t in Targets(FindLinks(body)) ==> '\r' !in t
  {
    var targets := Targets(FindLinks(body));
    TargetsReadBack(body);
    forall i | 0 <= i < |targets| ensures Normalized(targets)[i] == targets[i] <==> '\r' !in targets[i] {
      Newlines.NormalizeFixes(targets[i]);
    }
    if Normalized(targets) == targets {
      forall t | t in targets ensures '\r' !in t {
        var i :| 0 <= i < |targets| && targets[i] == t;
        assert Normalized(targets)[i] == targets[i];
      }
    }
  }
}
