/** What a sync shows of written pages: nothing that is kept from the player, unless a separator cuts the header. */
module VaultSecrets {
  import opened Basics
  import opened VaultPage
  import opened VaultSync
  import FtsIndex
  import Newlines
  import Text

  // ---------------------------------------------------------------- secrets of written pages

  /** The page as its own file holds it: no null fields, and the body with newlines behind one more. */
  function Stored(page: Page): Page {
    Page(WithoutNulls(page.front), "\n" + Newlines.Normalize(page.body))
  }

  /** What reading back assumes of the YAML library: a header without a separator loads as what was dumped. */
  ghost predicate LoadsBack(yaml: Yaml, page: Page) {
    var text := FtsIndex.HeaderText(yaml, page);
    !Text.Contains(text, SEP) ==> yaml.load(text) == Some(WithoutNulls(page.front))
  }

  /** Reading the file of a written page: a separator in the header ends it, and its rest belongs to the body. */
  lemma WrittenLoads(yaml: Yaml, page: Page)
    ensures LoadFile(yaml, Newlines.Normalize(AsMarkdown(yaml, page))) ==
            var front, body := FtsIndex.HeaderText(yaml, page), Newlines.Normalize(page.body);
            match yaml.load(front[..Text.Find(front, SEP)])
            case None => None
            case Some(fm) => Some(Page(fm, FtsIndex.BodyBehind(front, body)))
  {
    FtsIndex.FramedRead(yaml.dump(WithoutNulls(page.front)), page.body);
    FtsIndex.SplitFrame(FtsIndex.HeaderText(yaml, page), Newlines.Normalize(page.body));
  }

  /** A written page, a shown one too, reads back as it was stored exactly when its header holds no separator. */
  lemma WrittenReadsBack(yaml: Yaml, page: Page)
    requires LoadsBack(yaml, page)
    ensures LoadFile(yaml, Newlines.Normalize(AsMarkdown(yaml, page))) == Some(Stored(page))
            <==> !Text.Contains(FtsIndex.HeaderText(yaml, page), SEP)
  {
    var front := FtsIndex.HeaderText(yaml, page);
    WrittenLoads(yaml, page);
    Text.FindFirst(front, SEP);
    if Text.Contains(front, SEP) {
      SplitBroken(front, "");
    } else {
      assert front[..|front|] == front;
    }
  }

  /** The header is in one piece, and loads as what was dumped. */
  ghost predicate Intact(yaml: Yaml, page: Page) {
    !Text.Contains(FtsIndex.HeaderText(yaml, page), SEP) && LoadsBack(yaml, page)
  }

  /** Then the player's view of the file is that of the page: its own body, and none of its GM fields. */
  lemma IntactView(host: Host, path: Path, page: Page)
    requires Intact(host.yaml, page)
    ensures ViewOf(host, path, AsMarkdown(host.yaml, page)) == PageView(host, path, Stored(page))
  {
    WrittenReadsBack(host.yaml, page);
  }

  /** And what is shown of the page is nothing else: no GM page, no GM field, and a stub for a foreshadowed one. */
  lemma WrittenIsSafe(host: Host, path: Path, page: Page)
    requires Intact(host.yaml, page)
    ensures var v := ViewOf(host, path, AsMarkdown(host.yaml, page));
            v.Shown? ==>
              && !KeptSecret(path, page)
              && (forall k :: k in v.page.front.fields ==>
                    !IsGmField(k) && k in page.front.fields && v.page.front.fields[k] == page.front.fields[k])
              && v.page.body == if page.front.visibility.Foreshadowed? then UNKNOWN
                                else Text.Strip(host.withoutComments("\n" + Newlines.Normalize(page.body)))
  {
    IntactView(host, path, page);
  }

  /** The page is never shown at the path. */
  predicate KeptSecret(path: Path, page: Page) {
    (path != [] && path[0] == "meta") || page.front.visibility.GmOnly?
  }

  /** The pages differ in GM fields and GM comments only, or both are secret; foreshadowed bodies may differ too. */
  ghost predicate OnlySecretsDiffer(host: Host, path: Path, x: Page, y: Page) {
    || (KeptSecret(path, x) && KeptSecret(path, y))
    || SecretsApart(host, Stored(x), Stored(y))
  }

  /** The pages of two master vaults. */
  type Pages = map<Path, Page>

  function FilesOf(yaml: Yaml, pages: Pages): (r: Files)
    ensures r.Keys == pages.Keys
    ensures forall p :: p in r ==> r[p] == AsMarkdown(yaml, pages[p])
  {
    map p | p in pages :: AsMarkdown(yaml, pages[p])
  }

  /** At every path the pages are the same, or have intact headers and differ only in what is kept from the player. */
  ghost predicate VaultsDifferInSecrets(host: Host, a: Pages, b: Pages) {
    forall p :: IsMarkdown(p) ==>
      && (p in a && p in b ==>
            a[p] == b[p]
            || (Intact(host.yaml, a[p]) && Intact(host.yaml, b[p]) && OnlySecretsDiffer(host, p, a[p], b[p])))
      && (p in a && p !in b ==> Intact(host.yaml, a[p]) && KeptSecret(p, a[p]))
      && (p in b && p !in a ==> Intact(host.yaml, b[p]) && KeptSecret(p, b[p]))
  }

  lemma WrittenSecretsDiffer(host: Host, path: Path, x: Page, y: Page)
    requires Intact(host.yaml, x) && Intact(host.yaml, y) && OnlySecretsDiffer(host, path, x, y)
    ensures SecretsDiffer(host, path, AsMarkdown(host.yaml, x), AsMarkdown(host.yaml, y))
  {
    WrittenReadsBack(host.yaml, x);
    WrittenReadsBack(host.yaml, y);
  }

  lemma WrittenSecretPage(host: Host, path: Path, page: Page)
    requires Intact(host.yaml, page) && KeptSecret(path, page)
    ensures SecretPage(host, path, AsMarkdown(host.yaml, page))
  {
    WrittenReadsBack(host.yaml, page);
  }

  /** Secrets of written pages with intact headers have no influence on the player vault. */
  lemma WrittenSecretsDoNotShow(
      host: Host, a: Pages, b: Pages, listingA: seq<Path>, listingB: seq<Path>, player: Files)
    requires ScanOf(listingA, FilesOf(host.yaml, a)) && ScanOf(listingB, FilesOf(host.yaml, b))
    requires VaultsDifferInSecrets(host, a, b)
    ensures var x, y := FilesOf(host.yaml, a), FilesOf(host.yaml, b);
            var r, t := Project(host, x, SortedPaths(x, listingA)), Project(host, y, SortedPaths(y, listingB));
            && (r.Some? <==> t.Some?)
            && (r.Some? ==> Synced(host, r.value, player) == Synced(host, t.value, player))
  {
    var x, y := FilesOf(host.yaml, a), FilesOf(host.yaml, b);
    forall p | IsMarkdown(p)
      ensures p in x && p in y ==> SecretsDiffer(host, p, x[p], y[p])
      ensures p in x && p !in y ==> SecretPage(host, p, x[p])
      ensures p in y && p !in x ==> SecretPage(host, p, y[p])
    {
      if p in a && p in b && a[p] != b[p] { WrittenSecretsDiffer(host, p, a[p], b[p]); }
      if p in a && p !in b { WrittenSecretPage(host, p, a[p]); }
      if p in b && p !in a { WrittenSecretPage(host, p, b[p]); }
    }
    SecretsDoNotShow(host, x, y, listingA, listingB, player);
  }

  // ---------------------------------------------------------------- headers cut by a separator

  /** The dump is cut behind `head`, which loads as a page the player knows, and no GM comment hides the rest. */
  ghost predicate CutOpen(host: Host, path: Path, page: Page, head: string, rest: string, fm: Frontmatter) {
    && host.yaml.dump(WithoutNulls(page.front)) == head + SEP + rest
    && !Text.Contains(head, SEP) && '\r' !in head + SEP + rest
    && host.yaml.load(head) == Some(fm) && fm.visibility.PlayerKnown? && host.valid(WithoutGmFields(fm))
    && (path != [] ==> path[0] != "meta")
    && host.withoutComments(BehindCut(rest, page)) == BehindCut(rest, page)
  }

  /** What such a file holds behind the cut. */
  function BehindCut(rest: string, page: Page): string {
    rest + (SEP + "\n" + Newlines.Normalize(page.body))
  }

  /** Then the rest of the header, whatever fields it holds, is shown in front of the body. */
  lemma CutHeaderIsShown(host: Host, path: Path, page: Page, head: string, rest: string, fm: Frontmatter)
    requires CutOpen(host, path, page, head, rest, fm)
    ensures ViewOf(host, path, AsMarkdown(host.yaml, page))
            == Shown(Page(WithoutGmFields(fm), Text.Strip(BehindCut(rest, page))))
  {
    var front, body := head + SEP + rest, Newlines.Normalize(page.body);
    Newlines.NormalizeFixes(front);
    WrittenLoads(host.yaml, page);
    FindInFramed(head, rest);
    assert front[..|head|] == head && front[|head| + |SEP|..] == rest;
  }

  /** So two pages cut at the same place are shown the same exactly when all that stands behind the cut is. */
  lemma CutHeadersShowAll(
      host: Host, path: Path, x: Page, y: Page, head: string, restX: string, restY: string, fm: Frontmatter)
    requires CutOpen(host, path, x, head, restX, fm) && CutOpen(host, path, y, head, restY, fm) && x.body == y.body
    ensures ViewOf(host, path, AsMarkdown(host.yaml, x)) == ViewOf(host, path, AsMarkdown(host.yaml, y))
            <==> Text.StripLeft(restX) == Text.StripLeft(restY)
  {
    CutHeaderIsShown(host, path, x, head, restX, fm);
    CutHeaderIsShown(host, path, y, head, restY, fm);
    var tail := SEP + "\n" + Newlines.Normalize(x.body);
    Text.StripBefore(restX, tail);
    Text.StripBefore(restY, tail);
    if Text.Strip(restX + tail) == Text.Strip(restY + tail) {
      Text.SameFront(Text.StripLeft(restX), Text.StripLeft(restY), Text.StripRight(tail));
    }
  }

  /** A header line that ends in three dashes cuts the header so; the lines behind it are shown. */
  lemma CutLinesAreShown(
      host: Host, path: Path, page: Page, lines: seq<string>, line: string, secret: string, fm: Frontmatter)
    requires FtsIndex.NoDashes(lines) && Newlines.NoReturns(lines) && '-' !in line && '\r' !in line
    requires secret != "" && !Text.IsSpace(secret[0]) && '\r' !in secret
    requires var head, rest := FtsIndex.FromLines(lines) + line, FtsIndex.FromLines([secret]);
             && host.yaml.dump(WithoutNulls(page.front)) == FtsIndex.FromLines(lines + [line + "---"] + [secret])
             && host.yaml.load(head) == Some(fm) && fm.visibility.PlayerKnown? && host.valid(WithoutGmFields(fm))
             && host.withoutComments(BehindCut(rest, page)) == BehindCut(rest, page)
    requires path != [] ==> path[0] != "meta"
    ensures var view := ViewOf(host, path, AsMarkdown(host.yaml, page));
            view.Shown? && secret <= view.page.body
  {
    FtsIndex.CutLine(lines, line, [secret]);
    var rest := FtsIndex.FromLines([secret]);
    CutHeaderIsShown(host, path, page, FtsIndex.FromLines(lines) + line, rest, fm);
    Text.StripBefore(rest, SEP + "\n" + Newlines.Normalize(page.body));
    assert rest == secret + "\n" + "" == secret + "\n";
    assert Text.StripLeft(rest) == rest;
  }

  const INN := ["id: inn", "type: lore", "name: Inn", "aliases: []", "visibility: player_known"]

  lemma InnLines()
    ensures FtsIndex.NoDashes(INN) && Newlines.NoReturns(INN)
  {
  }

  lemma FieldLine(key: string, value: string)
    requires key in ["gm_notes: ", "secrets: "] && '\r' !in value
    ensures '\r' !in key + value && key + value != "" && !Text.IsSpace((key + value)[0])
    ensures '-' !in value ==> '-' !in key + value
  {
  }

  /** A known page whose GM notes end in the three dashes of the separator: its secrets are shown. */
  lemma SecretsAreShown(host: Host, path: Path, page: Page, notes: string, secret: string, fm: Frontmatter)
    requires '-' !in notes && '\r' !in notes && '\r' !in secret && (path != [] ==> path[0] != "meta")
    requires var line, last := "gm_notes: " + notes, "secrets: " + secret;
             var head, rest := FtsIndex.FromLines(INN) + line, FtsIndex.FromLines([last]);
             && host.yaml.dump(WithoutNulls(page.front)) == FtsIndex.FromLines(INN + [line + "---"] + [last])
             && host.yaml.load(head) == Some(fm) && fm.visibility.PlayerKnown? && host.valid(WithoutGmFields(fm))
             && host.withoutComments(BehindCut(rest, page)) == BehindCut(rest, page)
    ensures var view := ViewOf(host, path, AsMarkdown(host.yaml, page));
            view.Shown? && "secrets: " + secret <= view.page.body
  {
    InnLines();
    FieldLine("gm_notes: ", notes);
    FieldLine("secrets: ", secret);
    CutLinesAreShown(host, path, page, INN, "gm_notes: " + notes, "secrets: " + secret, fm);
  }
}
