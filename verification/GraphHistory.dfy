/**
 A history of page writes: the graph that incremental updates build from it, and the graph that a
 load builds from the files it leaves, whatever their headers read as.
 */
module GraphHistory {
  import opened Basics
  import opened VaultPage
  import opened VaultGraph
  import opened GraphAgreement
  import FtsIndex
  import Newlines
  import Text
  import Wikilinks

  // ---------------------------------------------------------------- pages and their files

  predicate NotInGraph(page: Page) {
    page.front.visibility.GmOnly? || page.front.id == ""
  }

  /** What is read of the file as header: the text before the first separator. */
  function HeaderRead(yaml: Yaml, read: HeaderReader, page: Page): Header {
    var front := FtsIndex.HeaderText(yaml, page);
    match read(front[..Text.Find(front, SEP)])
    case Some(header) => header
    case None => NO_HEADER
  }

  /** What is read of the file as body: the page's body, behind the rest of a header with the separator in it. */
  function BodyRead(yaml: Yaml, page: Page): string {
    Text.Strip(FtsIndex.BodyBehind(FtsIndex.HeaderText(yaml, page), Newlines.Normalize(page.body)))
  }

  /** Reading the file of a written page, whatever its header holds. */
  lemma ParsedPage(yaml: Yaml, read: HeaderReader, page: Page)
    ensures ParseFile(read, Newlines.Normalize(AsMarkdown(yaml, page))) ==
            var header := HeaderRead(yaml, read, page);
            Scan(header.hidden, StarOf(LinkedPage(header, Wikilinks.FindLinks(BodyRead(yaml, page)))))
  {
    FtsIndex.FramedRead(yaml.dump(WithoutNulls(page.front)), page.body);
    FtsIndex.SplitFrame(FtsIndex.HeaderText(yaml, page), Newlines.Normalize(page.body));
  }

  /** What a load makes of the file of a page: nothing when it reads as hidden or without an id. */
  function ReadFile(yaml: Yaml, read: HeaderReader, page: Page): (r: Option<Star>)
    ensures r.Some? ==> r.value.id != ""
  {
    var scan := ParseFile(read, Newlines.Normalize(AsMarkdown(yaml, page)));
    if scan.hidden || scan.star.id == "" then None else Some(scan.star)
  }

  /** The file reads back: as nothing for a page that is not in the graph, and else as the page that was added. */
  ghost predicate FileReadsBack(yaml: Yaml, read: HeaderReader, page: Page) {
    match ReadFile(yaml, read, page)
    case None => NotInGraph(page)
    case Some(star) => !NotInGraph(page) && SameStar(PageStar(page), star)
  }

  /** The header text is in one piece and reads as what was dumped. */
  ghost predicate HeaderReads(yaml: Yaml, read: HeaderReader, page: Page) {
    var text := FtsIndex.HeaderText(yaml, page);
    !Text.Contains(text, SEP) && read(text) == Some(HeaderOf(WithoutNulls(page.front)))
  }

  /** Then the file reads back exactly when the links of the stripped body, read with newlines, are the added ones. */
  lemma IntactHeaderReadsBack(yaml: Yaml, read: HeaderReader, page: Page)
    requires HeaderReads(yaml, read, page)
    ensures FileReadsBack(yaml, read, page) <==> NotInGraph(page) || ReadStar(page).Links() == PageStar(page).Links()
  {
    ParsedPage(yaml, read, page);
    FtsIndex.StripAfterNewline(Newlines.Normalize(page.body));
    var front := FtsIndex.HeaderText(yaml, page);
    Text.FindFirst(front, SEP);
    assert front[..|front|] == front;
  }

  /** The page as an intact file reads: no null fields, newlines read, white space stripped. */
  function ReadStar(page: Page): Star {
    StarOf(LinkedPage(HeaderOf(WithoutNulls(page.front)),
                      Wikilinks.FindLinks(Text.Strip(Newlines.Normalize(page.body)))))
  }

  lemma FieldsWithoutNulls(front: Frontmatter, name: string)
    ensures ListField(HeaderOf(WithoutNulls(front)), name) == ListField(HeaderOf(front), name)
    ensures RefField(HeaderOf(WithoutNulls(front)), name) == RefField(HeaderOf(front), name)
  {
  }

  lemma ReferencesWithoutNulls(front: Frontmatter)
    ensures References(HeaderOf(WithoutNulls(front))) == References(HeaderOf(front))
  {
    forall name: string
      ensures ListField(HeaderOf(WithoutNulls(front)), name) == ListField(HeaderOf(front), name)
      ensures RefField(HeaderOf(WithoutNulls(front)), name) == RefField(HeaderOf(front), name)
    {
      FieldsWithoutNulls(front, name);
    }
  }

  /** The body links a reload reads are the ones the update added exactly when no target holds a carriage return. */
  lemma BodyLinksReadBack(page: Page)
    ensures var body := Text.Strip(Newlines.Normalize(page.body));
            Wikilinks.Targets(Wikilinks.FindLinks(body)) == Wikilinks.Targets(Wikilinks.FindLinks(page.body))
            <==> Newlines.NoReturns(Wikilinks.Targets(Wikilinks.FindLinks(page.body)))
  {
    Wikilinks.TargetsReadBackExactly(page.body);
  }

  /** With an intact header, a page without a carriage return in a link target reads back. */
  lemma PageReadsBack(yaml: Yaml, read: HeaderReader, page: Page)
    requires HeaderReads(yaml, read, page) && Newlines.NoReturns(Wikilinks.Targets(Wikilinks.FindLinks(page.body)))
    ensures FileReadsBack(yaml, read, page)
  {
    BodyLinksReadBack(page);
    ReferencesWithoutNulls(page.front);
    IntactHeaderReadsBack(yaml, read, page);
  }

  // ---------------------------------------------------------------- histories of writes

  function PagesOf(writes: seq<FtsIndex.Write>): (r: seq<Page>)
    ensures |r| == |writes| && forall i :: 0 <= i < |r| ==> r[i] == writes[i].page
  {
    seq(|writes|, i requires 0 <= i < |writes| => writes[i].page)
  }

  /** The graph updates of a plan: pages for the GM only are skipped. */
  function VisibleStars(pages: seq<Page>): seq<Star> {
    if pages == [] then []
    else
      var last := pages[|pages| - 1];
      var front := VisibleStars(pages[..|pages| - 1]);
      if last.front.visibility.GmOnly? then front else front + [PageStar(last)]
  }

  /** The pages of a history that were added to the graph, in order. */
  function Shown(writes: seq<FtsIndex.Write>): seq<Star> {
    if writes == [] then []
    else
      var front, last := Shown(writes[..|writes| - 1]), writes[|writes| - 1].page;
      if NotInGraph(last) then front else front + [PageStar(last)]
  }

  lemma {:induction false} ShownAre(writes: seq<FtsIndex.Write>, s: Star)
    ensures s in Shown(writes) <==> exists w :: w in writes && !NotInGraph(w.page) && PageStar(w.page) == s
  {
    if writes != [] {
      var front, last := writes[..|writes| - 1], writes[|writes| - 1];
      assert writes == front + [last];
      ShownAre(front, s);
    }
  }

  lemma ShownHaveIds(writes: seq<FtsIndex.Write>)
    ensures HaveIds(Shown(writes))
  {
    forall s | s in Shown(writes) ensures s.id != "" { ShownAre(writes, s); }
  }

  /** The updates of written pages add the shown ones; a page without id adds nothing. */
  lemma {:induction false} UpdatesAreAdded(writes: seq<FtsIndex.Write>)
    ensures StarsAdded(EMPTY, VisibleStars(PagesOf(writes))) == StarsAdded(EMPTY, Shown(writes))
  {
    if writes != [] {
      var n := |writes| - 1;
      UpdatesAreAdded(writes[..n]);
      assert PagesOf(writes)[..n] == PagesOf(writes[..n]);
      StarsAddedSnoc(EMPTY, VisibleStars(PagesOf(writes[..n])), PageStar(writes[n].page));
      StarsAddedSnoc(EMPTY, Shown(writes[..n]), PageStar(writes[n].page));
    }
  }

  /** A scan of the vault: the text of every file once, in any order. */
  function TextsOf(vault: FtsIndex.Vault, files: seq<string>): (r: seq<Option<string>>)
    requires forall p :: p in files ==> p in vault
    ensures |r| == |files| && forall i :: 0 <= i < |r| ==> r[i] == Some(Newlines.Normalize(vault[files[i]]))
  {
    seq(|files|, i requires 0 <= i < |files| => Some(Newlines.Normalize(vault[files[i]])))
  }

  lemma {:induction false} KeptAre(scans: seq<Option<Scan>>, star: Star)
    ensures star in Kept(scans)
            <==> exists scan: Scan :: Some(scan) in scans && scan.star == star && star.id != "" && !scan.hidden
  {
    if scans != [] {
      var front, last := scans[..|scans| - 1], scans[|scans| - 1];
      assert scans == front + [last];
      KeptAre(front, star);
    }
  }

  /** The scan meets the files of the vault that a history leaves. */
  ghost predicate ScanOf(yaml: Yaml, writes: seq<FtsIndex.Write>, files: seq<string>) {
    forall p :: p in files <==> p in FtsIndex.Written(yaml, map[], writes)
  }

  /** The pages that a load reads from the files, in the order of the scan. */
  function Found(yaml: Yaml, read: HeaderReader, writes: seq<FtsIndex.Write>, files: seq<string>): seq<Star>
    requires ScanOf(yaml, writes, files)
  {
    Kept(ParsedFiles(read, TextsOf(FtsIndex.Written(yaml, map[], writes), files)))
  }

  lemma FoundFile(yaml: Yaml, read: HeaderReader, writes: seq<FtsIndex.Write>, files: seq<string>, i: nat)
    requires ScanOf(yaml, writes, files) && i < |files|
    ensures FtsIndex.LastPage(writes, files[i]).Some?
    ensures var page := FtsIndex.LastPage(writes, files[i]).value;
            ParsedFiles(read, TextsOf(FtsIndex.Written(yaml, map[], writes), files))[i]
            == Some(ParseFile(read, Newlines.Normalize(AsMarkdown(yaml, page))))
  {
    FtsIndex.WrittenIs(yaml, map[], writes, files[i]);
    assert files[i] in files;
  }

  /** What is found: the last page of every place, as its file reads. */
  lemma FoundAre(yaml: Yaml, read: HeaderReader, writes: seq<FtsIndex.Write>, files: seq<string>, star: Star)
    requires ScanOf(yaml, writes, files)
    ensures star in Found(yaml, read, writes, files) <==>
            exists p :: ReadNow(yaml, read, writes, p) == Some(star)
  {
    var scans := ParsedFiles(read, TextsOf(FtsIndex.Written(yaml, map[], writes), files));
    KeptAre(scans, star);
    if star in Found(yaml, read, writes, files) {
      var scan: Scan :| Some(scan) in scans && scan.star == star && star.id != "" && !scan.hidden;
      var i :| 0 <= i < |scans| && scans[i] == Some(scan);
      FoundFile(yaml, read, writes, files, i);
      assert ReadNow(yaml, read, writes, files[i]) == Some(star);
    }
    if p :| ReadNow(yaml, read, writes, p) == Some(star) {
      FtsIndex.WrittenIs(yaml, map[], writes, p);
      var i :| 0 <= i < |files| && files[i] == p;
      FoundFile(yaml, read, writes, files, i);
      assert scans[i] in scans;
    }
  }

  // ---------------------------------------------------------------- written pages against their reload

  /** The graph that the updates of written pages build. */
  function Incremental(writes: seq<FtsIndex.Write>): Graph {
    StarsAdded(EMPTY, VisibleStars(PagesOf(writes)))
  }

  /** The graph that a load of the written files builds. */
  function Reload(yaml: Yaml, read: HeaderReader, writes: seq<FtsIndex.Write>, files: seq<string>): Graph
    requires ScanOf(yaml, writes, files)
  {
    Loaded(Found(yaml, read, writes, files))
  }

  /**
   For every history of written pages, hidden ones included, every way their headers read, and every
   scan order of the files: the updates and a load give the same graph exactly when no page was
   hidden, no link dropped and nothing newly read.
   */
  lemma UpdatesEqualReload(yaml: Yaml, read: HeaderReader, writes: seq<FtsIndex.Write>, files: seq<string>)
    requires ScanOf(yaml, writes, files)
    ensures var added, found := Shown(writes), Found(yaml, read, writes, files);
            Incremental(writes) == Reload(yaml, read, writes, files)
            <==> NoneHidden(added, found) && NothingDropped(added, found) && NothingNew(added, found)
  {
    UpdatesAreAdded(writes);
    ShownHaveIds(writes);
    IncrementalEqualsReload(Shown(writes), Found(yaml, read, writes, files));
  }

  /** And the updates hold all of a load exactly when nothing new is read. */
  lemma UpdatesContainReload(yaml: Yaml, read: HeaderReader, writes: seq<FtsIndex.Write>, files: seq<string>)
    requires ScanOf(yaml, writes, files)
    ensures var g, r := Incremental(writes), Reload(yaml, read, writes, files);
            HasEdgesOf(g, r) && HasNodesOf(g, r) <==> NothingNew(Shown(writes), Found(yaml, read, writes, files))
  {
    UpdatesAreAdded(writes);
    ShownHaveIds(writes);
    IncrementalContainsReload(Shown(writes), Found(yaml, read, writes, files));
  }

  // ---------------------------------------------------------------- page by page

  /** A page keeps its place, and no other page has its id. */
  ghost predicate OnePlace(writes: seq<FtsIndex.Write>) {
    forall i, j :: 0 <= i < |writes| && 0 <= j < |writes| ==>
      (writes[i].page.front.id == writes[j].page.front.id <==> writes[i].path == writes[j].path)
  }

  /** The file reads as a page with its own id, or as nothing. */
  ghost predicate ReadsOwnId(yaml: Yaml, read: HeaderReader, page: Page) {
    ReadFile(yaml, read, page).Some? ==> ReadFile(yaml, read, page).value.id == page.front.id
  }

  /** So does the last file of every place. */
  ghost predicate OwnIds(yaml: Yaml, read: HeaderReader, writes: seq<FtsIndex.Write>) {
    forall p :: FtsIndex.LastPage(writes, p).Some? ==> ReadsOwnId(yaml, read, FtsIndex.LastPage(writes, p).value)
  }

  /** The page that a load reads now at a place. */
  function ReadNow(yaml: Yaml, read: HeaderReader, writes: seq<FtsIndex.Write>, p: string): Option<Star> {
    match FtsIndex.LastPage(writes, p)
    case Some(page) => ReadFile(yaml, read, page)
    case None => None
  }

  lemma LastWritten(writes: seq<FtsIndex.Write>, p: string)
    requires FtsIndex.LastPage(writes, p).Some?
    ensures FtsIndex.Write(p, FtsIndex.LastPage(writes, p).value) in writes
  {
  }

  lemma SamePlace(writes: seq<FtsIndex.Write>, v: FtsIndex.Write, w: FtsIndex.Write)
    requires OnePlace(writes) && v in writes && w in writes
    ensures v.page.front.id == w.page.front.id <==> v.path == w.path
  {
    var i :| 0 <= i < |writes| && writes[i] == v;
    var j :| 0 <= j < |writes| && writes[j] == w;
  }

  /** A page that is shown now was added last under its id. */
  lemma {:induction false} LastIsAdded(writes: seq<FtsIndex.Write>, p: string)
    requires OnePlace(writes) && FtsIndex.LastPage(writes, p).Some? && !NotInGraph(FtsIndex.LastPage(writes, p).value)
    ensures AddedLast(Shown(writes), PageStar(FtsIndex.LastPage(writes, p).value))
  {
    var n := |writes| - 1;
    var page := FtsIndex.LastPage(writes, p).value;
    LastWritten(writes, p);
    if writes[n].path != p {
      assert writes[n] in writes;
      SamePlace(writes, writes[n], FtsIndex.Write(p, page));
      forall i, j | 0 <= i < n && 0 <= j < n
        ensures writes[..n][i].page.front.id == writes[..n][j].page.front.id
                <==> writes[..n][i].path == writes[..n][j].path
      {
      }
      LastIsAdded(writes[..n], p);
      StillLast(Shown(writes[..n]), PageStar(writes[n].page), PageStar(page));
    } else {
      assert (Shown(writes[..n]) + [PageStar(page)])[..|Shown(writes[..n])|] == Shown(writes[..n]);
    }
  }

  /** Adding a page with another id leaves it the last of its own. */
  lemma StillLast(added: seq<Star>, other: Star, p: Star)
    requires AddedLast(added, p) && other.id != p.id
    ensures AddedLast(added + [other], p)
  {
    assert (added + [other])[..|added|] == added;
  }

  /** The place that a found page was read from. */
  lemma PlaceOfFound(yaml: Yaml, read: HeaderReader, writes: seq<FtsIndex.Write>, files: seq<string>, star: Star)
    returns (p: string)
    requires ScanOf(yaml, writes, files) && star in Found(yaml, read, writes, files)
    ensures FtsIndex.LastPage(writes, p).Some? && ReadNow(yaml, read, writes, p) == Some(star)
  {
    FoundAre(yaml, read, writes, files, star);
    p :| ReadNow(yaml, read, writes, p) == Some(star);
  }

  lemma FoundDistinct(yaml: Yaml, read: HeaderReader, writes: seq<FtsIndex.Write>, files: seq<string>)
    requires ScanOf(yaml, writes, files) && OnePlace(writes) && OwnIds(yaml, read, writes)
    ensures DistinctIds(Elements(Found(yaml, read, writes, files)))
  {
    var found := Found(yaml, read, writes, files);
    forall s, t | s in Elements(found) && t in Elements(found) && s.id == t.id ensures s == t {
      var p := PlaceOfFound(yaml, read, writes, files, s);
      var q := PlaceOfFound(yaml, read, writes, files, t);
      LastWritten(writes, p);
      LastWritten(writes, q);
      SamePlace(writes, FtsIndex.Write(p, FtsIndex.LastPage(writes, p).value),
                FtsIndex.Write(q, FtsIndex.LastPage(writes, q).value));
    }
  }

  /** What is found under the id of a written page is what is read now at its place. */
  lemma FoundOfWrite(
      yaml: Yaml, read: HeaderReader, writes: seq<FtsIndex.Write>, files: seq<string>, w: FtsIndex.Write, t: string)
    requires ScanOf(yaml, writes, files) && OnePlace(writes) && OwnIds(yaml, read, writes) && w in writes
    ensures var found, now := Found(yaml, read, writes, files), ReadNow(yaml, read, writes, w.path);
            var id := w.page.front.id;
            && (Attr(found, id).Some? <==> now.Some?)
            && (Label(found, id, t).Some? <==> now.Some? && t in now.value.Links())
  {
    var found, now, id := Found(yaml, read, writes, files), ReadNow(yaml, read, writes, w.path), w.page.front.id;
    var last := FtsIndex.Write(w.path, FtsIndex.LastPage(writes, w.path).value);
    LastWritten(writes, w.path);
    SamePlace(writes, w, last);
    FoundDistinct(yaml, read, writes, files);
    if Attr(found, id).Some? {
      var s := StarOfId(found, id);
      var p := PlaceOfFound(yaml, read, writes, files, s);
      LastWritten(writes, p);
      SamePlace(writes, w, FtsIndex.Write(p, FtsIndex.LastPage(writes, p).value));
      OnlyStar(found, s, t);
    } else {
      LabelNeedsPage(found, id, t);
    }
    if now.Some? {
      FoundAre(yaml, read, writes, files, now.value);
      OnlyStar(found, now.value, t);
    }
  }

  /** Every page that was ever shown is still read at its place. */
  ghost predicate NoPageUnread(yaml: Yaml, read: HeaderReader, writes: seq<FtsIndex.Write>) {
    forall w :: w in writes && !NotInGraph(w.page) ==> ReadNow(yaml, read, writes, w.path).Some?
  }

  /** Every link a page was ever shown with is still read when the page is. */
  ghost predicate NoLinkUnread(yaml: Yaml, read: HeaderReader, writes: seq<FtsIndex.Write>) {
    forall w, t :: w in writes && !NotInGraph(w.page) && t in PageStar(w.page).Links() ==>
      ReadNow(yaml, read, writes, w.path).Some? ==> t in ReadNow(yaml, read, writes, w.path).value.Links()
  }

  /** What is read now was added last under its id. */
  ghost predicate ReadWasAdded(yaml: Yaml, read: HeaderReader, writes: seq<FtsIndex.Write>) {
    forall p :: ReadNow(yaml, read, writes, p).Some? ==>
      AddedLast(Shown(writes), ReadNow(yaml, read, writes, p).value)
  }

  lemma NoneHiddenByPage(yaml: Yaml, read: HeaderReader, writes: seq<FtsIndex.Write>, files: seq<string>)
    requires ScanOf(yaml, writes, files) && OnePlace(writes) && OwnIds(yaml, read, writes)
    ensures NoneHidden(Shown(writes), Found(yaml, read, writes, files)) <==> NoPageUnread(yaml, read, writes)
  {
    var added, found := Shown(writes), Found(yaml, read, writes, files);
    if NoneHidden(added, found) {
      forall w | w in writes && !NotInGraph(w.page) ensures ReadNow(yaml, read, writes, w.path).Some? {
        FoundOfWrite(yaml, read, writes, files, w, "");
        ShownAre(writes, PageStar(w.page));
        AttrIsPage(added, w.page.front.id);
      }
    }
    if NoPageUnread(yaml, read, writes) {
      forall id | Attr(added, id).Some? ensures Attr(found, id).Some? {
        var s := StarOfId(added, id);
        ShownAre(writes, s);
        var w :| w in writes && !NotInGraph(w.page) && PageStar(w.page) == s;
        FoundOfWrite(yaml, read, writes, files, w, "");
      }
    }
  }

  lemma NothingDroppedByPage(yaml: Yaml, read: HeaderReader, writes: seq<FtsIndex.Write>, files: seq<string>)
    requires ScanOf(yaml, writes, files) && OnePlace(writes) && OwnIds(yaml, read, writes)
    ensures NothingDropped(Shown(writes), Found(yaml, read, writes, files)) <==> NoLinkUnread(yaml, read, writes)
  {
    var added, found := Shown(writes), Found(yaml, read, writes, files);
    if NothingDropped(added, found) {
      forall w, t | w in writes && !NotInGraph(w.page) && t in PageStar(w.page).Links()
        ensures ReadNow(yaml, read, writes, w.path).Some? ==> t in ReadNow(yaml, read, writes, w.path).value.Links()
      {
        FoundOfWrite(yaml, read, writes, files, w, t);
        ShownAre(writes, PageStar(w.page));
        LabelIsLink(added, w.page.front.id, t);
      }
    }
    if NoLinkUnread(yaml, read, writes) {
      forall source, t | Label(added, source, t).Some? && Attr(found, source).Some?
        ensures Label(found, source, t).Some?
      {
        LabelIsLink(added, source, t);
        var s :| s in added && s.id == source && t in s.Links();
        ShownAre(writes, s);
        var w :| w in writes && !NotInGraph(w.page) && PageStar(w.page) == s;
        FoundOfWrite(yaml, read, writes, files, w, t);
      }
    }
  }

  lemma NothingNewWhenAdded(yaml: Yaml, read: HeaderReader, writes: seq<FtsIndex.Write>, files: seq<string>)
    requires ScanOf(yaml, writes, files) && OnePlace(writes) && OwnIds(yaml, read, writes)
    ensures NothingNew(Shown(writes), Found(yaml, read, writes, files)) <==> ReadWasAdded(yaml, read, writes)
  {
    var added, found := Shown(writes), Found(yaml, read, writes, files);
    FoundDistinct(yaml, read, writes, files);
    NothingNewByPage(added, found);
    if ReadWasAdded(yaml, read, writes) {
      forall s | s in found ensures AddedLast(added, s) {
        var p := PlaceOfFound(yaml, read, writes, files, s);
      }
    }
    if forall s :: s in found ==> AddedLast(added, s) {
      forall p | ReadNow(yaml, read, writes, p).Some? ensures AddedLast(added, ReadNow(yaml, read, writes, p).value) {
        FoundAre(yaml, read, writes, files, ReadNow(yaml, read, writes, p).value);
      }
    }
  }

  /**
   Page by page, whatever the headers hold as long as each file reads as its own id or as nothing: the
   updates hold all of a load exactly when every page was added last as it is read now, and equal it
   exactly when also every page and every link ever shown is still read. The order of the scan does
   not matter.
   */
  lemma UpdatesAgainstReloadByPage(yaml: Yaml, read: HeaderReader, writes: seq<FtsIndex.Write>, files: seq<string>)
    requires ScanOf(yaml, writes, files) && OnePlace(writes) && OwnIds(yaml, read, writes)
    ensures var g, r := Incremental(writes), Reload(yaml, read, writes, files);
            && (HasEdgesOf(g, r) && HasNodesOf(g, r) <==> ReadWasAdded(yaml, read, writes))
            && (g == r <==> ReadWasAdded(yaml, read, writes)
                            && NoPageUnread(yaml, read, writes) && NoLinkUnread(yaml, read, writes))
  {
    NothingNewWhenAdded(yaml, read, writes, files);
    NoneHiddenByPage(yaml, read, writes, files);
    NothingDroppedByPage(yaml, read, writes, files);
    UpdatesEqualReload(yaml, read, writes, files);
    UpdatesContainReload(yaml, read, writes, files);
  }

  // ---------------------------------------------------------------- files that read back

  /** The file last written at every place reads back. */
  ghost predicate FilesReadBack(yaml: Yaml, read: HeaderReader, writes: seq<FtsIndex.Write>) {
    forall p :: FtsIndex.LastPage(writes, p).Some? ==>
      FileReadsBack(yaml, read, FtsIndex.LastPage(writes, p).value)
  }

  function LastAt(writes: seq<FtsIndex.Write>, w: FtsIndex.Write): Page
    requires w in writes
  {
    FtsIndex.LastPage(writes, w.path).value
  }

  /** No page that was shown is hidden by now. */
  ghost predicate NoPageHidden(writes: seq<FtsIndex.Write>) {
    forall w :: w in writes && !NotInGraph(w.page) ==> !NotInGraph(LastAt(writes, w))
  }

  /** No page that is shown has lost a link it was ever shown with. */
  ghost predicate NoLinkDropped(writes: seq<FtsIndex.Write>) {
    forall w, t :: w in writes && !NotInGraph(w.page) && t in PageStar(w.page).Links() ==>
      !NotInGraph(LastAt(writes, w)) ==> t in PageStar(LastAt(writes, w)).Links()
  }

  lemma ReadBackNow(yaml: Yaml, read: HeaderReader, writes: seq<FtsIndex.Write>, w: FtsIndex.Write)
    requires FilesReadBack(yaml, read, writes) && w in writes
    ensures var now := ReadNow(yaml, read, writes, w.path);
            && (now.Some? <==> !NotInGraph(LastAt(writes, w)))
            && (now.Some? ==> SameStar(PageStar(LastAt(writes, w)), now.value))
  {
    assert FileReadsBack(yaml, read, LastAt(writes, w));
  }

  lemma ReadBackWasAdded(yaml: Yaml, read: HeaderReader, writes: seq<FtsIndex.Write>)
    requires OnePlace(writes) && FilesReadBack(yaml, read, writes)
    ensures OwnIds(yaml, read, writes) && ReadWasAdded(yaml, read, writes)
  {
    forall p | ReadNow(yaml, read, writes, p).Some?
      ensures AddedLast(Shown(writes), ReadNow(yaml, read, writes, p).value)
    {
      assert FileReadsBack(yaml, read, FtsIndex.LastPage(writes, p).value);
      LastIsAdded(writes, p);
    }
  }

  /** With files that read back: equal exactly when no page was hidden and no link dropped, and never less. */
  lemma ReadableUpdatesEqualReload(yaml: Yaml, read: HeaderReader, writes: seq<FtsIndex.Write>, files: seq<string>)
    requires ScanOf(yaml, writes, files) && OnePlace(writes) && FilesReadBack(yaml, read, writes)
    ensures var g, r := Incremental(writes), Reload(yaml, read, writes, files);
            && (g == r <==> NoPageHidden(writes) && NoLinkDropped(writes))
            && HasEdgesOf(g, r) && HasNodesOf(g, r)
  {
    ReadBackWasAdded(yaml, read, writes);
    UpdatesAgainstReloadByPage(yaml, read, writes, files);
    forall w | w in writes
      ensures var now := ReadNow(yaml, read, writes, w.path);
              && (now.Some? <==> !NotInGraph(LastAt(writes, w)))
              && (now.Some? ==> now.value.Links() == PageStar(LastAt(writes, w)).Links())
    {
      ReadBackNow(yaml, read, writes, w);
    }
  }

  // ---------------------------------------------------------------- pages written once

  ghost predicate DistinctPaths(writes: seq<FtsIndex.Write>) {
    forall i, j :: 0 <= i < j < |writes| ==> writes[i].path != writes[j].path
  }

  lemma LastPageOnce(writes: seq<FtsIndex.Write>, w: FtsIndex.Write)
    requires DistinctPaths(writes) && w in writes
    ensures FtsIndex.LastPage(writes, w.path) == Some(w.page)
  {
    var last := FtsIndex.Write(w.path, FtsIndex.LastPage(writes, w.path).value);
    var i :| 0 <= i < |writes| && writes[i] == w;
    var j :| 0 <= j < |writes| && writes[j] == last;
    assert i == j;
  }

  /** The same pages, each written once, leave the same files in any order. */
  lemma SameVault(yaml: Yaml, a: seq<FtsIndex.Write>, b: seq<FtsIndex.Write>)
    requires DistinctPaths(a) && DistinctPaths(b) && forall w :: w in a <==> w in b
    ensures FtsIndex.Written(yaml, map[], a) == FtsIndex.Written(yaml, map[], b)
  {
    forall path ensures FtsIndex.LastPage(a, path) == FtsIndex.LastPage(b, path) {
      if FtsIndex.LastPage(a, path).Some? { LastPageOnce(b, FtsIndex.Write(path, FtsIndex.LastPage(a, path).value)); }
    }
    var v, w := FtsIndex.Written(yaml, map[], a), FtsIndex.Written(yaml, map[], b);
    forall path ensures path in v <==> path in w {
      FtsIndex.WrittenIs(yaml, map[], a, path);
      FtsIndex.WrittenIs(yaml, map[], b, path);
    }
    forall path | path in v ensures v[path] == w[path] {
      FtsIndex.WrittenIs(yaml, map[], a, path);
      FtsIndex.WrittenIs(yaml, map[], b, path);
    }
  }

  lemma ShownDistinct(writes: seq<FtsIndex.Write>)
    requires OnePlace(writes) && DistinctPaths(writes)
    ensures DistinctIds(Elements(Shown(writes)))
  {
    forall s, t | s in Elements(Shown(writes)) && t in Elements(Shown(writes)) && s.id == t.id ensures s == t {
      ShownAre(writes, s);
      ShownAre(writes, t);
      var v :| v in writes && !NotInGraph(v.page) && PageStar(v.page) == s;
      var w :| w in writes && !NotInGraph(w.page) && PageStar(w.page) == t;
      SamePlace(writes, v, w);
      LastPageOnce(writes, v);
      LastPageOnce(writes, w);
    }
  }

  /** The file of a page written once is found as it reads. */
  lemma FoundOnce(yaml: Yaml, read: HeaderReader, writes: seq<FtsIndex.Write>, files: seq<string>, star: Star)
    requires ScanOf(yaml, writes, files) && DistinctPaths(writes)
    ensures star in Found(yaml, read, writes, files)
            <==> exists w :: w in writes && ReadFile(yaml, read, w.page) == Some(star)
  {
    FoundAre(yaml, read, writes, files, star);
    if p :| ReadNow(yaml, read, writes, p) == Some(star) { LastWritten(writes, p); }
    if w :| w in writes && ReadFile(yaml, read, w.page) == Some(star) {
      LastPageOnce(writes, w);
      assert ReadNow(yaml, read, writes, w.path) == Some(star);
    }
  }

  lemma ReadBackIsIn(yaml: Yaml, read: HeaderReader, writes: seq<FtsIndex.Write>, files: seq<string>)
    requires ScanOf(yaml, writes, files) && DistinctPaths(writes)
    requires forall w :: w in writes ==> FileReadsBack(yaml, read, w.page)
    ensures AllIn(Shown(writes), Found(yaml, read, writes, files))
    ensures AllIn(Found(yaml, read, writes, files), Shown(writes))
  {
    var added, found := Shown(writes), Found(yaml, read, writes, files);
    forall s | s in added ensures exists p :: p in found && SameStar(s, p) {
      ShownAre(writes, s);
      var w :| w in writes && !NotInGraph(w.page) && PageStar(w.page) == s;
      assert FileReadsBack(yaml, read, w.page);
      FoundOnce(yaml, read, writes, files, ReadFile(yaml, read, w.page).value);
    }
    forall p | p in found ensures exists s :: s in added && SameStar(p, s) {
      FoundOnce(yaml, read, writes, files, p);
      var w :| w in writes && ReadFile(yaml, read, w.page) == Some(p);
      assert FileReadsBack(yaml, read, w.page);
      ShownAre(writes, PageStar(w.page));
    }
  }

  lemma OnlyPage(writes: seq<FtsIndex.Write>, v: FtsIndex.Write, w: FtsIndex.Write)
    requires DistinctPaths(writes) && OnePlace(writes) && v in writes && w in writes
    requires v.page.front.id == w.page.front.id
    ensures v == w
  {
    SamePlace(writes, v, w);
    LastPageOnce(writes, v);
    LastPageOnce(writes, w);
  }

  lemma OwnIdOnce(yaml: Yaml, read: HeaderReader, writes: seq<FtsIndex.Write>, w: FtsIndex.Write)
    requires DistinctPaths(writes) && OwnIds(yaml, read, writes) && w in writes
    ensures ReadsOwnId(yaml, read, w.page)
  {
    LastPageOnce(writes, w);
  }

  lemma ShownReadsBack(
      yaml: Yaml, read: HeaderReader, writes: seq<FtsIndex.Write>, files: seq<string>, w: FtsIndex.Write)
    requires ScanOf(yaml, writes, files) && DistinctPaths(writes) && OnePlace(writes) && OwnIds(yaml, read, writes)
    requires AllIn(Shown(writes), Found(yaml, read, writes, files)) && w in writes && !NotInGraph(w.page)
    ensures FileReadsBack(yaml, read, w.page)
  {
    ShownAre(writes, PageStar(w.page));
    var p :| p in Found(yaml, read, writes, files) && SameStar(PageStar(w.page), p);
    FoundOnce(yaml, read, writes, files, p);
    var v :| v in writes && ReadFile(yaml, read, v.page) == Some(p);
    OwnIdOnce(yaml, read, writes, v);
    OnlyPage(writes, v, w);
  }

  lemma FoundWasShown(
      yaml: Yaml, read: HeaderReader, writes: seq<FtsIndex.Write>, files: seq<string>, w: FtsIndex.Write)
    requires ScanOf(yaml, writes, files) && DistinctPaths(writes) && OnePlace(writes) && OwnIds(yaml, read, writes)
    requires AllIn(Found(yaml, read, writes, files), Shown(writes)) && w in writes
    requires ReadFile(yaml, read, w.page).Some?
    ensures !NotInGraph(w.page)
  {
    var p := ReadFile(yaml, read, w.page).value;
    OwnIdOnce(yaml, read, writes, w);
    FoundOnce(yaml, read, writes, files, p);
    var s := TwinIn(Found(yaml, read, writes, files), Shown(writes), p);
    ShownAre(writes, s);
    var v :| v in writes && !NotInGraph(v.page) && PageStar(v.page) == s;
    OnlyPage(writes, v, w);
  }

  /**
   When every page is written once, and its file reads as its own id or as nothing, updates in any
   order and a load of the files in any order give the same graph exactly when each file reads back.
   */
  lemma FreshPagesEqualReload(
      yaml: Yaml, read: HeaderReader, updates: seq<FtsIndex.Write>, writes: seq<FtsIndex.Write>, files: seq<string>)
    requires DistinctPaths(updates) && DistinctPaths(writes) && forall w :: w in updates <==> w in writes
    requires OnePlace(updates) && OwnIds(yaml, read, updates) && ScanOf(yaml, writes, files)
    ensures Incremental(updates) == Reload(yaml, read, writes, files)
            <==> forall w :: w in updates ==> FileReadsBack(yaml, read, w.page)
  {
    SameVault(yaml, updates, writes);
    var added, found := Shown(updates), Found(yaml, read, updates, files);
    UpdatesAreAdded(updates);
    ShownHaveIds(updates);
    ShownDistinct(updates);
    FoundDistinct(yaml, read, updates, files);
    DistinctPagesAgree(added, found);
    if forall w :: w in updates ==> FileReadsBack(yaml, read, w.page) { ReadBackIsIn(yaml, read, updates, files); }
    if AllIn(added, found) && AllIn(found, added) {
      forall w | w in updates ensures FileReadsBack(yaml, read, w.page) {
        if !NotInGraph(w.page) {
          ShownReadsBack(yaml, read, updates, files, w);
        } else if ReadFile(yaml, read, w.page).Some? {
          FoundWasShown(yaml, read, updates, files, w);
        }
      }
    }
  }

  // ---------------------------------------------------------------- histories where the graphs differ

  /** The page, made one for the GM only. */
  function Hide(page: Page): Page {
    page.(front := page.front.(visibility := GmOnly))
  }

  /**
   A page that is shown and then hidden stays in the incremental graph with its attributes. A load
   gives its id attributes exactly when the hidden file reads as a page with this id.
   */
  lemma HiddenPageStays(yaml: Yaml, read: HeaderReader, path: string, page: Page, files: seq<string>)
    requires !NotInGraph(page)
    requires ScanOf(yaml, [FtsIndex.Write(path, page), FtsIndex.Write(path, Hide(page))], files)
    ensures var writes := [FtsIndex.Write(path, page), FtsIndex.Write(path, Hide(page))];
            var g, r, id := Incremental(writes), Reload(yaml, read, writes, files), page.front.id;
            && id in g.nodes && g.nodes[id] == Some(PageStar(page).attributes)
            && (id in r.nodes && r.nodes[id].Some? <==>
                  ReadFile(yaml, read, Hide(page)).Some? && ReadFile(yaml, read, Hide(page)).value.id == id)
  {
    var writes := [FtsIndex.Write(path, page), FtsIndex.Write(path, Hide(page))];
    var id := page.front.id;
    var found := Found(yaml, read, writes, files);
    UpdatesAreAdded(writes);
    ShownHaveIds(writes);
    assert writes[..1] == [writes[0]] && writes[..1][..0] == [];
    assert Shown(writes) == Shown(writes[..1]) == [PageStar(page)];
    AddedNodes(Shown(writes), id);
    LoadedGraph(found, id, ("", ""));
    AttrIsPage(found, id);
    forall s ensures s in found <==> ReadFile(yaml, read, Hide(page)) == Some(s) {
      OneFile(yaml, read, writes, files, path, s);
    }
  }

  /** When only one place was ever written, its last page is all that is found. */
  lemma OneFile(
      yaml: Yaml, read: HeaderReader, writes: seq<FtsIndex.Write>, files: seq<string>, path: string, star: Star)
    requires ScanOf(yaml, writes, files) && writes != [] && forall w :: w in writes ==> w.path == path
    ensures star in Found(yaml, read, writes, files)
            <==> ReadFile(yaml, read, writes[|writes| - 1].page) == Some(star)
  {
    FoundAre(yaml, read, writes, files, star);
    assert writes[|writes| - 1] in writes;
    assert ReadNow(yaml, read, writes, path) == ReadFile(yaml, read, writes[|writes| - 1].page);
    if p :| ReadNow(yaml, read, writes, p) == Some(star) { LastWritten(writes, p); }
  }

  /**
   A page for the GM only whose header reads, up to a separator in it, as one with its id and without
   a visibility: it is not added, a load shows it, and the incremental graph is less than the load.
   */
  lemma CutHeaderIsLoaded(
      yaml: Yaml, read: HeaderReader, path: string, page: Page, head: string, rest: string, header: Header,
      files: seq<string>)
    requires page.front.visibility.GmOnly? && page.front.id != "" && !Text.Contains(head, SEP)
    requires yaml.dump(WithoutNulls(page.front)) == head + SEP + rest && '\r' !in head + SEP + rest
    requires read(head) == Some(header) && header.id == page.front.id && !header.hidden
    requires ScanOf(yaml, [FtsIndex.Write(path, page)], files)
    ensures var writes := [FtsIndex.Write(path, page)];
            var g, r := Incremental(writes), Reload(yaml, read, writes, files);
            && g == EMPTY && page.front.id in r.nodes
            && r.nodes[page.front.id] == Some(Attributes(header.kind, header.name))
            && !HasNodesOf(g, r) && NoPageHidden(writes) && NoLinkDropped(writes) && OnePlace(writes)
  {
    var writes := [FtsIndex.Write(path, page)];
    var id, found := page.front.id, Found(yaml, read, writes, files);
    CutHeaderReads(yaml, read, page, head, rest, header);
    var star := ReadFile(yaml, read, page).value;
    forall s ensures s in found <==> s == star { OneFile(yaml, read, writes, files, path, s); }
    LoadedGraph(found, id, ("", ""));
    AttrIsPage(found, id);
    LastOfId(found, id);
    assert PagesOf(writes)[..0] == [] && VisibleStars(PagesOf(writes)) == [];
  }

  lemma CutHeaderReads(yaml: Yaml, read: HeaderReader, page: Page, head: string, rest: string, header: Header)
    requires !Text.Contains(head, SEP) && header.id != "" && !header.hidden && read(head) == Some(header)
    requires yaml.dump(WithoutNulls(page.front)) == head + SEP + rest && '\r' !in head + SEP + rest
    ensures ReadFile(yaml, read, page).Some?
    ensures var star := ReadFile(yaml, read, page).value;
            star.id == header.id && star.attributes == Attributes(header.kind, header.name)
  {
    ParsedPage(yaml, read, page);
    Newlines.NormalizeFixes(head + SEP + rest);
    FindInFramed(head, rest);
    assert (head + SEP + rest)[..|head|] == head;
  }

  /** Such a page, with a name that ends in the three dashes of the separator. */
  lemma SecretCultIsLoaded(yaml: Yaml, read: HeaderReader, path: string, page: Page, files: seq<string>)
    requires page.front.id == "cult" && page.front.visibility.GmOnly?
    requires yaml.dump(WithoutNulls(page.front)) == FtsIndex.FromLines(CULT + ["name: Secret cult" + "---"] + HIDDEN)
    requires read(FtsIndex.FromLines(CULT) + "name: Secret cult")
             == Some(Header("cult", false, "lore", "Secret cult", map[]))
    requires ScanOf(yaml, [FtsIndex.Write(path, page)], files)
    ensures var writes := [FtsIndex.Write(path, page)];
            !HasNodesOf(Incremental(writes), Reload(yaml, read, writes, files))
  {
    CultLines();
    FtsIndex.CutLine(CULT, "name: Secret cult", HIDDEN);
    var head, rest := FtsIndex.FromLines(CULT) + "name: Secret cult", FtsIndex.FromLines(HIDDEN);
    var header := Header("cult", false, "lore", "Secret cult", map[]);
    CutHeaderIsLoaded(yaml, read, path, page, head, rest, header, files);
  }

  const CULT := ["id: cult", "type: lore"]
  const HIDDEN := ["aliases: []", "visibility: gm_only"]

  lemma CultLines()
    ensures FtsIndex.NoDashes(CULT) && '-' !in "name: Secret cult"
    ensures Newlines.NoReturns(CULT) && Newlines.NoReturns(HIDDEN) && '\r' !in "name: Secret cult"
  {
  }
}
