/** The full-text index over vault page bodies: incremental updates against a full rebuild. */
module FtsIndex {
  import opened Basics
  import opened VaultPage
  import Newlines
  import Text

  datatype Row = Row(path: string, content: string)

  /** A Markdown file met by the directory scan; None when reading it raises. */
  datatype ScannedFile = ScannedFile(path: string, text: Option<string>)

  // ---------------------------------------------------------------- reading a page file

  function ExtractBody(text: string): string {
    match SplitFront(text)
    case Some((_, body)) => Text.Strip(body)
    case None => Text.Strip(text)
  }

  function Lines(s: string): seq<string> {
    var i := Text.Find(s, "\n");
    if i < |s| then [s[..i]] + Lines(s[i + 1..]) else [s]
  }

  function StripQuotes(s: string): string {
    if s != "" && s[0] in "\"'" then StripQuotes(s[1..])
    else if s != "" && s[|s| - 1] in "\"'" then StripQuotes(s[..|s| - 1])
    else s
  }

  function FirstVisibility(lines: seq<string>): Option<string> {
    if lines == [] then None
    else
      var line := Text.Strip(lines[0]);
      if Text.StartsWith(line, "visibility:") then Some(StripQuotes(Text.Strip(line[|"visibility:"|..])))
      else FirstVisibility(lines[1..])
  }

  /** The visibility found by scanning the header lines, without a YAML parser. */
  function ExtractVisibility(text: string): Option<string> {
    if !Text.StartsWith(text, SEP) then None
    else
      match SplitFront(text)
      case Some((front, _)) => FirstVisibility(Lines(front))
      case None => FirstVisibility(Lines(text[|SEP|..]))
  }

  ghost predicate SaysVisibility(line: string) {
    "visibility:" <= Text.Strip(line)
  }

  /** The first line that starts with the word gives the visibility: the rest of it without white space and quotes. */
  lemma {:induction false} FirstVisibilityMeans(lines: seq<string>)
    ensures match FirstVisibility(lines)
            case None => forall i :: 0 <= i < |lines| ==> !SaysVisibility(lines[i])
            case Some(value) =>
              exists i :: 0 <= i < |lines| && SaysVisibility(lines[i])
                && (forall j :: 0 <= j < i ==> !SaysVisibility(lines[j]))
                && value == StripQuotes(Text.Strip(Text.Strip(lines[i])[11..]))
  {
    if lines != [] && !SaysVisibility(lines[0]) {
      FirstVisibilityMeans(lines[1..]);
      if FirstVisibility(lines).Some? {
        var i :| 0 <= i < |lines| - 1 && SaysVisibility(lines[1..][i])
                 && (forall j :: 0 <= j < i ==> !SaysVisibility(lines[1..][j]))
                 && FirstVisibility(lines).value == StripQuotes(Text.Strip(Text.Strip(lines[1..][i])[11..]));
        forall j | 0 <= j < i + 1 ensures !SaysVisibility(lines[j]) {
          if j > 0 { assert lines[1..][j - 1] == lines[j]; }
        }
        assert SaysVisibility(lines[i + 1]);
      } else {
        forall i | 0 <= i < |lines| ensures !SaysVisibility(lines[i]) {
          if i > 0 { assert lines[1..][i - 1] == lines[i]; }
        }
      }
    }
  }

  predicate IsQuote(c: char) {
    c == '"' || c == '\''
  }

  /** Quotes of either kind come off both ends, however many there are. */
  lemma {:induction false} QuotesComeOff(pre: string, s: string, post: string)
    requires (forall c :: c in pre ==> IsQuote(c)) && forall c :: c in post ==> IsQuote(c)
    requires s != "" ==> !IsQuote(s[0]) && !IsQuote(s[|s| - 1])
    ensures StripQuotes(pre + s + post) == s
    decreases |pre| + |post|
  {
    var all := pre + s + post;
    if pre != "" {
      assert pre[0] in pre && all[1..] == pre[1..] + s + post;
      QuotesComeOff(pre[1..], s, post);
    } else if post != "" && s != "" {
      assert post[|post| - 1] in post && all[..|all| - 1] == pre + s + post[..|post| - 1];
      QuotesComeOff(pre, s, post[..|post| - 1]);
    } else if post != "" {
      assert post[0] in post && all[1..] == pre + s + post[1..];
      QuotesComeOff(pre, s, post[1..]);
    } else {
      assert all == s;
    }
  }

  // ---------------------------------------------------------------- rows

  function WithoutPath(rows: seq<Row>, path: string): (r: seq<Row>)
    ensures forall x :: x in r <==> x in rows && x.path != path
    ensures UniquePaths(rows) ==> UniquePaths(r)
  {
    if rows == [] then []
    else if rows[0].path == path then WithoutPath(rows[1..], path)
    else [rows[0]] + WithoutPath(rows[1..], path)
  }

  predicate UniquePaths(rows: seq<Row>) {
    forall i, j :: 0 <= i < j < |rows| ==> rows[i].path != rows[j].path
  }

  /** The text a rebuild indexes for a file: none when blank or hidden. */
  function Indexable(text: string): (r: Option<string>)
    ensures r.Some? ==> r.value != "" && Text.Strip(r.value) == r.value
  {
    var body := ExtractBody(text);
    if body == "" || ExtractVisibility(text) == Some("gm_only") then None
    else
      StripIdempotent(match SplitFront(text) case Some((_, b)) => b case None => text);
      Some(body)
  }

  lemma StripIdempotent(s: string)
    ensures Text.Strip(Text.Strip(s)) == Text.Strip(s)
  {
    var t := Text.StripLeft(s);
    assert Text.StripLeft(Text.Strip(s)) == Text.Strip(s) by {
      if Text.Strip(s) != "" { assert Text.Strip(s)[0] == t[0]; }
    }
  }

  /** What a rebuild makes of a file: its path and the text to index, if any. */
  datatype Scan = Scan(path: string, found: Option<string>)

  function Scanned(files: seq<ScannedFile>): (r: seq<Scan>)
    ensures |r| == |files|
    ensures forall i :: 0 <= i < |r| ==> r[i].path == files[i].path
    ensures forall i :: 0 <= i < |r| ==>
      r[i].found == match files[i].text case Some(text) => Indexable(text) case None => None
  {
    seq(|files|, i requires 0 <= i < |files| =>
      Scan(files[i].path, match files[i].text case Some(text) => Indexable(text) case None => None))
  }

  function Rebuilt(scans: seq<Scan>): (r: seq<Row>)
    ensures forall x :: x in r <==> Scan(x.path, Some(x.content)) in scans
  {
    if scans == [] then []
    else
      var front, last := scans[..|scans| - 1], scans[|scans| - 1];
      assert scans == front + [last];
      Rebuilt(front) + match last.found case Some(text) => [Row(last.path, text)] case None => []
  }

  lemma RebuiltSnoc(scans: seq<Scan>, i: nat)
    requires i < |scans|
    ensures Rebuilt(scans[..i + 1]) ==
            Rebuilt(scans[..i]) + match scans[i].found case Some(text) => [Row(scans[i].path, text)] case None => []
  {
    assert scans[..i + 1][..i] == scans[..i];
  }

  class Index {
    var rows: seq<Row>

    constructor ()
      ensures rows == []
    {
      rows := [];
    }

    /** DELETE of the path, then INSERT. */
    method IndexPage(path: string, content: string)
      modifies this
      ensures rows == Indexed(old(rows), path, content)
    {
      rows := WithoutPath(rows, path);
      rows := rows + [Row(path, content)];
    }

    method RemovePage(path: string)
      modifies this
      ensures rows == WithoutPath(old(rows), path)
    {
      rows := WithoutPath(rows, path);
    }

    /** Drops every row, then scans the vault; returns the number of pages indexed. */
    method RebuildAll(rootExists: bool, files: seq<ScannedFile>) returns (count: nat)
      modifies this
      ensures rows == if rootExists then Rebuilt(Scanned(files)) else []
      ensures count == |rows|
    {
      rows := [];
      count := 0;
      if !rootExists { return; }
      for i := 0 to |files|
        invariant rows == Rebuilt(Scanned(files)[..i]) && count == |rows|
      {
        RebuiltSnoc(Scanned(files), i);
        if files[i].text.None? { continue; }
        var text := files[i].text.value;
        var body := ExtractBody(text);
        if body == "" { continue; }
        if ExtractVisibility(text) == Some("gm_only") { continue; }
        rows := rows + [Row(files[i].path, body)];
        count := count + 1;
      }
      assert Scanned(files)[..|files|] == Scanned(files);
    }
  }

  function Indexed(rows: seq<Row>, path: string, content: string): seq<Row> {
    WithoutPath(rows, path) + [Row(path, content)]
  }

  /** The incremental step for one written page: index a visible page, drop a hidden one. */
  function PageIndexed(rows: seq<Row>, path: string, page: Page): seq<Row> {
    if page.front.visibility.GmOnly? then WithoutPath(rows, path) else Indexed(rows, path, page.body)
  }

  // ---------------------------------------------------------------- index against vault

  /** The vault: file text by path. */
  type Vault = map<string, string>

  /** What a rebuild would index at each path of the vault, whose files are read as text. */
  function Findable(vault: Vault): (r: map<string, Option<string>>)
    ensures r.Keys == vault.Keys
    ensures forall p :: p in r ==> r[p] == Indexable(Newlines.Normalize(vault[p]))
    ensures Clean(r)
  {
    map p | p in vault :: Indexable(Newlines.Normalize(vault[p]))
  }

  ghost predicate Clean(findable: map<string, Option<string>>) {
    forall p :: p in findable && findable[p].Some? ==>
      findable[p].value != "" && Text.Strip(findable[p].value) == findable[p].value
  }

  /** A scan of the vault: every file once, in any order. */
  ghost predicate ScanOf(scans: seq<Scan>, findable: map<string, Option<string>>) {
    && (forall i, j :: 0 <= i < j < |scans| ==> scans[i].path != scans[j].path)
    && (forall p, f :: Scan(p, f) in scans <==> p in findable && findable[p] == f)
  }

  /** What the index finds at a path: the stripped text of its row, when there is any. */
  ghost predicate Finds(rows: seq<Row>, path: string, text: string) {
    text != "" && exists r :: r in rows && r.path == path && Text.Strip(r.content) == text
  }

  /** At most one row per path, and the searchable text is what a rebuild would make searchable. */
  ghost predicate InSync(rows: seq<Row>, findable: map<string, Option<string>>) {
    && UniquePaths(rows)
    && forall path, text :: Finds(rows, path, text) <==> path in findable && findable[path] == Some(text)
  }

  lemma {:induction false} RebuiltUnique(scans: seq<Scan>)
    requires forall i, j :: 0 <= i < j < |scans| ==> scans[i].path != scans[j].path
    ensures UniquePaths(Rebuilt(scans))
  {
    if scans != [] { RebuiltUnique(scans[..|scans| - 1]); }
  }

  /** A rebuild over any scan of the vault is in sync with it. */
  lemma RebuildInSync(scans: seq<Scan>, findable: map<string, Option<string>>)
    requires ScanOf(scans, findable) && Clean(findable)
    ensures InSync(Rebuilt(scans), findable)
  {
    RebuiltUnique(scans);
    forall path, text ensures Finds(Rebuilt(scans), path, text) <==> path in findable && findable[path] == Some(text) {
      if path in findable && findable[path] == Some(text) {
        assert Scan(path, Some(text)) in scans;
        assert Row(path, text) in Rebuilt(scans);
      }
    }
  }

  // ---------------------------------------------------------------- incremental updates

  lemma StripAfterNewline(body: string)
    ensures Text.Strip("\n" + body) == Text.Strip(body)
  {
    Newlines.StripLeftCons('\n', body);
  }

  /** A page file as it is read back from disk. */
  lemma FramedRead(front: string, body: string)
    ensures Newlines.Normalize(Framed(front, body)) == Framed(Newlines.Normalize(front), Newlines.Normalize(body))
  {
    var tail := SEP + ("\n" + body);
    assert Framed(front, body) == SEP + (front + tail);
    Newlines.NormalizePrefix(SEP, front + tail);
    Newlines.NormalizeConcat(front, tail);
    assert tail == (SEP + "\n") + body;
    Newlines.NormalizePrefix(SEP + "\n", body);
    assert SEP + (Newlines.Normalize(front) + (SEP + "\n" + Newlines.Normalize(body)))
           == Framed(Newlines.Normalize(front), Newlines.Normalize(body));
  }

  /** The header lines that the scan for the visibility sees: those before the first separator. */
  function HeaderLines(front: string): seq<string> {
    Lines(front[..Text.Find(front, SEP)])
  }

  /** What a rebuild indexes for a framed text whose header does not break the framing. */
  lemma FramedIndexable(front: string, body: string)
    requires !Text.Contains(front, SEP)
    ensures Indexable(Framed(front, body)) ==
            if Text.Strip(body) == "" || FirstVisibility(HeaderLines(front)) == Some("gm_only") then None
            else Some(Text.Strip(body))
  {
    SplitFramed(front, body);
    StripAfterNewline(body);
    assert SEP <= Framed(front, body);
    Text.FindFirst(front, SEP);
    assert front[..Text.Find(front, SEP)] == front;
  }

  /** Stripped text that starts with the end of a header is not the stripped body. */
  lemma BrokenText(front: string, body: string, i: nat)
    requires i <= |front|
    ensures var found := Text.Strip(front[i..] + (SEP + "\n" + body));
            && found != "" && found != Text.Strip(body)
            && ('\r' !in front && '\r' !in body ==> '\r' !in found)
  {
    var head, tail := front[i..] + (SEP + "\n"), SEP + "\n" + body;
    assert front[i..] + tail == head + body;
    assert head[|front| - i] == SEP[0];
    Text.StripAfterWord(head, body, |front| - i);
    Text.StripWithin(head + body);
  }

  /** What is read after a header that a separator ends early. */
  function BrokenBody(front: string, body: string): string
    requires Text.Find(front, SEP) + |SEP| <= |front|
  {
    front[Text.Find(front, SEP) + |SEP|..] + (SEP + "\n" + body)
  }

  /** What stands behind the first separator after the header text began: the body, or a broken one. */
  function BodyBehind(front: string, body: string): string {
    if Text.Find(front, SEP) + |SEP| <= |front| then BrokenBody(front, body) else "\n" + body
  }

  /** Splitting any framed text. */
  lemma SplitFrame(front: string, body: string)
    ensures SplitFront(Framed(front, body)) == Some((front[..Text.Find(front, SEP)], BodyBehind(front, body)))
    ensures Text.StartsWith(Framed(front, body), SEP)
  {
    FramedRest(front, body);
    Text.FindFirst(front, SEP);
    if Text.Contains(front, SEP) {
      SplitBroken(front, body);
    } else {
      SplitFramed(front, body);
      assert front[..|front|] == front;
    }
  }

  lemma BrokenReads(front: string, body: string)
    requires Text.Contains(front, SEP)
    ensures Text.Find(front, SEP) + |SEP| <= |front|
    ensures ExtractBody(Framed(front, body)) == Text.Strip(BrokenBody(front, body))
    ensures ExtractVisibility(Framed(front, body)) == FirstVisibility(HeaderLines(front))
  {
    SplitBroken(front, body);
    FramedRest(front, body);
  }

  /** A separator in the header moves its end into the indexed text, which is never the body then. */
  lemma BrokenIndexable(front: string, body: string)
    requires Text.Contains(front, SEP)
    ensures var found := Indexable(Framed(front, body));
            && (found.None? <==> FirstVisibility(HeaderLines(front)) == Some("gm_only"))
            && found != Some(Text.Strip(body))
            && (found.Some? && '\r' !in front && '\r' !in body ==> '\r' !in found.value)
  {
    BrokenReads(front, body);
    BrokenText(front, body, Text.Find(front, SEP) + |SEP|);
  }

  /** What should be found at the path of a written page. */
  function PageText(page: Page): Option<string> {
    if page.front.visibility.GmOnly? || Text.Strip(page.body) == "" then None else Some(Text.Strip(page.body))
  }

  /** The header text of a page as its file is read. */
  function HeaderText(yaml: Yaml, page: Page): string {
    Newlines.Normalize(yaml.dump(WithoutNulls(page.front)))
  }

  /** What a rebuild makes of the file of a page. */
  function FileText(yaml: Yaml, page: Page): Option<string> {
    Indexable(Newlines.Normalize(AsMarkdown(yaml, page)))
  }

  /**
   The file of the page says what the page says: header lines that read as hidden belong to a
   hidden or a blank page; otherwise the header does not break the framing, and a page with text
   is not hidden and its text holds no carriage return.
   */
  predicate ReadsBack(yaml: Yaml, page: Page) {
    var front, text := HeaderText(yaml, page), Text.Strip(page.body);
    if FirstVisibility(HeaderLines(front)) == Some("gm_only") then page.front.visibility.GmOnly? || text == ""
    else !Text.Contains(front, SEP) && (text == "" || (!page.front.visibility.GmOnly? && '\r' !in text))
  }

  /** For every page and every header text, indexed and rebuilt text are the same exactly for pages that read back. */
  lemma IndexedEqualsRebuilt(yaml: Yaml, page: Page)
    ensures FileText(yaml, page) == PageText(page) <==> ReadsBack(yaml, page)
  {
    var front, body := HeaderText(yaml, page), Newlines.Normalize(page.body);
    FramedRead(yaml.dump(WithoutNulls(page.front)), page.body);
    Newlines.StripNormalize(page.body);
    Newlines.NormalizeFixes(Text.Strip(page.body));
    if Text.Contains(front, SEP) {
      Newlines.NormalizedHasNoReturn(yaml.dump(WithoutNulls(page.front)));
      Newlines.NormalizedHasNoReturn(page.body);
      BrokenIndexable(front, body);
    } else {
      FramedIndexable(front, body);
    }
  }

  // ---------------------------------------------------------------- a header line of another field

  lemma FirstLine(line: string, rest: string)
    requires '\n' !in line
    ensures Lines(line + "\n" + rest) == [line] + Lines(rest)
  {
    var s := line + "\n" + rest;
    assert s[|line|..] == "\n" + rest;
    forall j | 0 <= j < |line| ensures !("\n" <= s[j..]) {
      assert s[j..][0] == line[j];
    }
    Text.FindIs(s, "\n", |line|);
    assert s[..|line|] == line && s[|line| + 1..] == rest;
  }

  function FromLines(lines: seq<string>): string {
    if lines == [] then "" else lines[0] + "\n" + FromLines(lines[1..])
  }

  lemma {:induction false} LinesOf(lines: seq<string>)
    requires forall i :: 0 <= i < |lines| ==> '\n' !in lines[i]
    ensures Lines(FromLines(lines)) == lines + [""]
  {
    if lines != [] {
      LinesOf(lines[1..]);
      FirstLine(lines[0], FromLines(lines[1..]));
    }
  }

  ghost predicate NoDashes(lines: seq<string>) {
    forall i :: 0 <= i < |lines| ==> '-' !in lines[i]
  }

  lemma {:induction false} LinesJoined(lines: seq<string>, more: seq<string>)
    ensures FromLines(lines + more) == FromLines(lines) + FromLines(more)
  {
    if lines == [] {
      assert lines + more == more;
    } else {
      LinesJoined(lines[1..], more);
      assert (lines + more)[1..] == lines[1..] + more;
    }
  }

  /** A header line that ends in three dashes ends the header: its end and the line break are the separator. */
  lemma CutLine(lines: seq<string>, line: string, more: seq<string>)
    requires NoDashes(lines) && '-' !in line && Newlines.NoReturns(lines) && '\r' !in line && Newlines.NoReturns(more)
    ensures FromLines(lines + [line + "---"] + more) == (FromLines(lines) + line) + SEP + FromLines(more)
    ensures !Text.Contains(FromLines(lines) + line, SEP)
    ensures '\r' !in (FromLines(lines) + line) + SEP + FromLines(more)
  {
    LinesJoined(lines, [line + "---"] + more);
    assert lines + ([line + "---"] + more) == lines + [line + "---"] + more;
    assert ([line + "---"] + more)[1..] == more;
    assert FromLines([line + "---"] + more) == line + "---" + "\n" + FromLines(more);
    assert line + "---" + "\n" == line + SEP;
    NotInLines(lines, '-');
    NotInLines(lines, '\r');
    NotInLines(more, '\r');
    NoDashNoSeparator(FromLines(lines) + line);
  }

  lemma {:induction false} NotInLines(lines: seq<string>, c: char)
    requires c != '\n' && forall i :: 0 <= i < |lines| ==> c !in lines[i]
    ensures c !in FromLines(lines)
  {
    if lines != [] { NotInLines(lines[1..], c); }
  }

  /** The dump of a header whose name is a quoted text with a visibility line of its own in it. */
  function NameSaysVisibility(shown: string, own: string): seq<string> {
    ["name: 'A", "", "  visibility: " + shown + "'", "visibility: " + own]
  }

  lemma OtherLine(line: string, lines: seq<string>)
    requires line == "" || (!Text.IsSpace(line[0]) && line[0] != 'v')
    ensures FirstVisibility([line] + lines) == FirstVisibility(lines)
  {
    assert ([line] + lines)[1..] == lines;
    assert Text.Strip(line) == "" || Text.Strip(line)[0] == line[0];
  }

  /** No white space at either end. */
  predicate Trimmed(s: string) {
    s != "" && !Text.IsSpace(s[0]) && !Text.IsSpace(s[|s| - 1])
  }

  lemma StripIndented(s: string)
    requires Trimmed(s)
    ensures Text.Strip([' '] + s) == Text.Strip([' '] + ([' '] + s)) == s
  {
    Newlines.StripLeftCons(' ', s);
    Newlines.StripLeftCons(' ', [' '] + s);
  }

  lemma QuoteStripped(s: string)
    requires s != "" && s[0] !in "\"'" && s[|s| - 1] !in "\"'"
    ensures StripQuotes(s + ['\'']) == s
  {
    assert "" + s + ['\''] == s + ['\''];
    QuotesComeOff("", s, ['\'']);
  }

  lemma VisibilityLine(value: string, lines: seq<string>)
    requires Trimmed(value)
    ensures FirstVisibility([[' '] + ([' '] + ("visibility:" + ([' '] + value)))] + lines) == Some(StripQuotes(value))
  {
    var line := "visibility:" + ([' '] + value);
    assert Trimmed(line) by { assert line[|line| - 1] == value[|value| - 1]; }
    StripIndented(line);
    StripIndented(value);
    assert line[|"visibility:"|..] == [' '] + value;
  }

  lemma NoDashNoSeparator(s: string)
    requires '-' !in s
    ensures !Text.Contains(s, SEP) && Text.Find(s, SEP) == |s|
  {
    forall i | 0 <= i <= |s| ensures !(SEP <= s[i..]) {
      if i < |s| { assert s[i..][0] == s[i]; }
    }
    Text.FindFirst(s, SEP);
  }

  lemma HeaderOfLines(lines: seq<string>)
    requires forall i :: 0 <= i < |lines| ==> '\n' !in lines[i] && '-' !in lines[i] && '\r' !in lines[i]
    ensures var front := FromLines(lines);
            !Text.Contains(front, SEP) && '\r' !in front && HeaderLines(front) == lines + [""]
  {
    var front := FromLines(lines);
    NotInLines(lines, '-');
    NotInLines(lines, '\r');
    NoDashNoSeparator(front);
    assert front[..|front|] == front;
    LinesOf(lines);
  }

  lemma IndentedLine(shown: string)
    ensures "  visibility: " + shown + "'" == [' '] + ([' '] + ("visibility:" + ([' '] + (shown + ['\'']))))
  {
  }

  lemma InnerLineIsRead(shown: string, own: string)
    requires Trimmed(shown) && shown[0] !in "\"'" && shown[|shown| - 1] !in "\"'"
    ensures FirstVisibility(NameSaysVisibility(shown, own) + [""]) == Some(shown)
  {
    var lines := NameSaysVisibility(shown, own) + [""];
    IndentedLine(shown);
    VisibilityLine(shown + ['\''], lines[3..]);
    QuoteStripped(shown);
    assert lines[2..] == [lines[2]] + lines[3..];
    OtherLine("", lines[2..]);
    assert lines[1..] == [""] + lines[2..];
    OtherLine(lines[0], lines[1..]);
    assert lines == [lines[0]] + lines[1..];
  }

  predicate PlainWord(s: string) {
    Trimmed(s) && s[0] !in "\"'" && s[|s| - 1] !in "\"'" && '\n' !in s && '\r' !in s && '-' !in s
  }

  /** The line inside the name is read before the page's own visibility. */
  lemma NameIsReadFirst(shown: string, own: string)
    requires PlainWord(shown) && PlainWord(own)
    ensures var front := FromLines(NameSaysVisibility(shown, own));
            && !Text.Contains(front, SEP) && '\r' !in front
            && FirstVisibility(HeaderLines(front)) == Some(shown)
  {
    HeaderOfLines(NameSaysVisibility(shown, own));
    InnerLineIsRead(shown, own);
  }

  // ---------------------------------------------------------------- histories of writes

  /** A page and where it goes. */
  datatype Write = Write(path: string, page: Page)

  /** Pages written one after the other; a later page may reuse an earlier path. */
  function Written(yaml: Yaml, vault: Vault, writes: seq<Write>): Vault {
    if writes == [] then vault
    else
      var last := writes[|writes| - 1];
      Written(yaml, vault, writes[..|writes| - 1])[last.path := AsMarkdown(yaml, last.page)]
  }

  function AllIndexed(rows: seq<Row>, writes: seq<Write>): seq<Row> {
    if writes == [] then rows
    else
      var last := writes[|writes| - 1];
      PageIndexed(AllIndexed(rows, writes[..|writes| - 1]), last.path, last.page)
  }

  /** The page that was written last at a path. */
  function LastPage(writes: seq<Write>, path: string): (r: Option<Page>)
    ensures r.Some? ==> Write(path, r.value) in writes
    ensures r.None? ==> forall w :: w in writes ==> w.path != path
  {
    if writes == [] then None
    else
      var front, last := writes[..|writes| - 1], writes[|writes| - 1];
      assert writes == front + [last];
      if last.path == path then Some(last.page) else LastPage(front, path)
  }

  /** The vault holds the last page of every path. */
  lemma {:induction false} WrittenIs(yaml: Yaml, vault: Vault, writes: seq<Write>, path: string)
    ensures var written := Written(yaml, vault, writes);
            match LastPage(writes, path)
            case Some(page) => path in written && written[path] == AsMarkdown(yaml, page)
            case None => (path in written <==> path in vault) && (path in vault ==> written[path] == vault[path])
  {
    if writes != [] { WrittenIs(yaml, vault, writes[..|writes| - 1], path); }
  }

  /** One update: the path holds the body of the page, once, or nothing for a gm_only page; other rows stay. */
  lemma PageIndexedRows(rows: seq<Row>, path: string, page: Page, r: Row)
    ensures var rows' := PageIndexed(rows, path, page);
            && (r in rows' <==>
                  if r.path == path then page.front.visibility != GmOnly && r.content == page.body else r in rows)
            && (forall i, j :: 0 <= i < j < |rows'| && rows'[i].path == path ==> rows'[j].path != path)
  {
    assert forall x :: x in WithoutPath(rows, path) ==> x.path != path;
  }

  /** After indexing a page, its path finds the page's text; other paths find what they did. */
  lemma PageFinds(rows: seq<Row>, path: string, page: Page, p: string, text: string)
    ensures Finds(PageIndexed(rows, path, page), p, text) <==>
            if p == path then PageText(page) == Some(text) else Finds(rows, p, text)
  {
    var rows' := PageIndexed(rows, path, page);
    if p != path {
      assert forall r: Row :: r.path == p ==> (r in rows' <==> r in rows);
    } else if !page.front.visibility.GmOnly? {
      assert Row(path, page.body) in rows';
      assert forall r: Row :: r in rows' && r.path == path ==> r == Row(path, page.body);
    }
  }

  lemma PageKeepsSync(rows: seq<Row>, findable: map<string, Option<string>>, path: string, page: Page)
    requires InSync(rows, findable)
    ensures InSync(PageIndexed(rows, path, page), findable[path := PageText(page)])
  {
    var findable' := findable[path := PageText(page)];
    forall p, text
      ensures Finds(PageIndexed(rows, path, page), p, text) <==> p in findable' && findable'[p] == Some(text)
    {
      PageFinds(rows, path, page, p, text);
    }
  }

  /** The incremental index finds the text of the last page of every path. */
  lemma {:induction false} IndexedFinds(rows: seq<Row>, writes: seq<Write>, path: string, text: string)
    requires UniquePaths(rows)
    ensures UniquePaths(AllIndexed(rows, writes))
    ensures Finds(AllIndexed(rows, writes), path, text) <==>
            match LastPage(writes, path)
            case Some(page) => PageText(page) == Some(text)
            case None => Finds(rows, path, text)
  {
    if writes != [] {
      var front, last := writes[..|writes| - 1], writes[|writes| - 1];
      IndexedFinds(rows, front, path, text);
      PageFinds(AllIndexed(rows, front), last.path, last.page, path, text);
    }
  }

  /** The index finds at the path what a rebuild would find there. */
  ghost predicate SyncedAt(rows: seq<Row>, findable: map<string, Option<string>>, path: string) {
    forall text :: Finds(rows, path, text) <==> path in findable && findable[path] == Some(text)
  }

  /** The last page of the path, if one was written there, reads back. */
  predicate LastReadsBack(yaml: Yaml, writes: seq<Write>, path: string) {
    LastPage(writes, path).Some? ==> ReadsBack(yaml, LastPage(writes, path).value)
  }

  /** Over any history of writes, a path is in sync exactly when the last page written there reads back. */
  lemma IncrementalSyncedAt(yaml: Yaml, rows: seq<Row>, vault: Vault, writes: seq<Write>, path: string)
    requires InSync(rows, Findable(vault))
    ensures SyncedAt(AllIndexed(rows, writes), Findable(Written(yaml, vault, writes)), path)
            <==> LastReadsBack(yaml, writes, path)
  {
    var rows', findable := AllIndexed(rows, writes), Findable(Written(yaml, vault, writes));
    forall text { IndexedFinds(rows, writes, path, text); }
    WrittenIs(yaml, vault, writes, path);
    if LastPage(writes, path).Some? {
      var page := LastPage(writes, path).value;
      IndexedEqualsRebuilt(yaml, page);
      assert findable[path] == FileText(yaml, page);
      if FileText(yaml, page) != PageText(page) {
        var text := if PageText(page).Some? then PageText(page).value else FileText(yaml, page).value;
        assert !(Finds(rows', path, text) <==> findable[path] == Some(text));
      }
    }
  }

  lemma InSyncPathByPath(rows: seq<Row>, findable: map<string, Option<string>>)
    requires UniquePaths(rows)
    ensures InSync(rows, findable) <==> forall path :: SyncedAt(rows, findable, path)
  {
    if forall path :: SyncedAt(rows, findable, path) {
      forall path, text ensures Finds(rows, path, text) <==> path in findable && findable[path] == Some(text) {
        assert SyncedAt(rows, findable, path);
      }
    }
  }

  /** So the whole index is in sync exactly when, at every path, the last page written there reads back. */
  lemma IncrementalStaysInSync(yaml: Yaml, rows: seq<Row>, vault: Vault, writes: seq<Write>)
    requires InSync(rows, Findable(vault))
    ensures InSync(AllIndexed(rows, writes), Findable(Written(yaml, vault, writes)))
            <==> forall path :: LastReadsBack(yaml, writes, path)
  {
    IndexedFinds(rows, writes, "", "");
    InSyncPathByPath(AllIndexed(rows, writes), Findable(Written(yaml, vault, writes)));
    forall path { IncrementalSyncedAt(yaml, rows, vault, writes, path); }
  }

  ghost predicate SameAt(rows: seq<Row>, other: seq<Row>, path: string) {
    forall text :: Finds(rows, path, text) <==> Finds(other, path, text)
  }

  /**
   Over any history of writes and any scan of the vault they leave, incremental updates and a full
   rebuild find the same text at a path exactly when the last page written there reads back.
   */
  lemma IncrementalEqualsRebuild(
      yaml: Yaml, rows: seq<Row>, vault: Vault, writes: seq<Write>, files: seq<ScannedFile>, path: string)
    requires InSync(rows, Findable(vault))
    requires ScanOf(Scanned(files), Findable(Written(yaml, vault, writes)))
    ensures UniquePaths(AllIndexed(rows, writes)) && UniquePaths(Rebuilt(Scanned(files)))
    ensures SameAt(AllIndexed(rows, writes), Rebuilt(Scanned(files)), path) <==> LastReadsBack(yaml, writes, path)
  {
    var findable := Findable(Written(yaml, vault, writes));
    IndexedFinds(rows, writes, path, "");
    RebuildInSync(Scanned(files), findable);
    IncrementalSyncedAt(yaml, rows, vault, writes, path);
    assert SameAt(AllIndexed(rows, writes), Rebuilt(Scanned(files)), path)
           <==> SyncedAt(AllIndexed(rows, writes), findable, path);
  }

  /** A page whose header lines read as `shown` in its name: what a rebuild makes of its file. */
  lemma NamedFileText(yaml: Yaml, page: Page, shown: string, own: string)
    requires PlainWord(shown) && PlainWord(own) && Text.Strip(page.body) != ""
    requires yaml.dump(WithoutNulls(page.front)) == FromLines(NameSaysVisibility(shown, own))
    ensures FileText(yaml, page) ==
            if shown == "gm_only" then None else Some(Newlines.Normalize(Text.Strip(page.body)))
  {
    var front := yaml.dump(WithoutNulls(page.front));
    NameIsReadFirst(shown, own);
    FramedRead(front, page.body);
    Newlines.NormalizeFixes(front);
    Newlines.StripNormalize(page.body);
    FramedIndexable(front, Newlines.Normalize(page.body));
  }

  lemma WordsArePlain()
    ensures PlainWord("player_known") && PlainWord("gm_only")
  {
  }

  /**
   A hidden page whose name says player_known on a line of its own: the index drops it, and a
   rebuild indexes its text.
   */
  lemma RebuildShowsHiddenPage(yaml: Yaml, page: Page)
    requires page.front.visibility.GmOnly? && Text.Strip(page.body) != ""
    requires yaml.dump(WithoutNulls(page.front)) == FromLines(NameSaysVisibility("player_known", "gm_only"))
    ensures PageText(page) == None && FileText(yaml, page) == Some(Newlines.Normalize(Text.Strip(page.body)))
  {
    WordsArePlain();
    NamedFileText(yaml, page, "player_known", "gm_only");
  }

  /** The mirror case: a known page whose name says gm_only is indexed, and a rebuild drops it. */
  lemma RebuildDropsKnownPage(yaml: Yaml, page: Page)
    requires page.front.visibility.PlayerKnown? && Text.Strip(page.body) != ""
    requires yaml.dump(WithoutNulls(page.front)) == FromLines(NameSaysVisibility("gm_only", "player_known"))
    ensures PageText(page) == Some(Text.Strip(page.body)) && FileText(yaml, page) == None
  {
    WordsArePlain();
    NamedFileText(yaml, page, "gm_only", "player_known");
  }
}
