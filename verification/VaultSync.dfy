/** Projecting the master vault to the player vault: what a sync writes, and what it can never show. */
module VaultSync {
  import opened Basics
  import opened VaultPage
  import Newlines
  import Sorting
  import Text

  /** A path below a vault root, by its parts. */
  type Path = seq<string>

  type Files = map<Path, string>

  datatype Projected = Projected(path: Path, page: Page)

  /**
   The YAML library, the models that check a projected header, the removal of GM comments from
   a body, and the index and log texts, which are made from the projected pages alone.
   */
  datatype Host = Host(
    yaml: Yaml, valid: Frontmatter -> bool, withoutComments: string -> string,
    indexText: seq<Projected> -> string, logText: seq<Projected> -> string)

  const INDEX: Path := ["index.md"]
  const LOG: Path := ["log.md"]
  const UNKNOWN := "*Unknown - you have heard this name but know little more.*"

  predicate IsMarkdown(path: Path) {
    path != [] && Text.EndsWith(path[|path| - 1], ".md")
  }

  /** Paths are ordered part by part. */
  predicate PathBefore(a: Path, b: Path) {
    if b == [] then false
    else if a == [] then true
    else if a[0] == b[0] then PathBefore(a[1..], b[1..])
    else Text.Less(a[0], b[0])
  }

  /** The temporary file beside a target. */
  function TmpOf(path: Path): Path {
    if path == [] then [".tmp"]
    else
      var front, name := path[..|path| - 1], path[|path| - 1];
      if |name| > 3 && Text.EndsWith(name, ".md") then front + [name[..|name| - 3] + ".tmp"]
      else front + [name + ".tmp"]
  }

  // ---------------------------------------------------------------- what a page shows

  predicate IsGmField(key: string) {
    key == "secrets" || Text.StartsWith(key, "gm_")
  }

  function WithoutGmFields(front: Frontmatter): Frontmatter {
    front.(fields := map k | k in front.fields && !IsGmField(k) :: front.fields[k])
  }

  datatype View = Hidden | Shown(page: Page) | Broken

  function Checked(host: Host, page: Page): View {
    if host.valid(page.front) then Shown(page) else Broken
  }

  /** The player's view of a page of the master vault. */
  function PageView(host: Host, path: Path, page: Page): View {
    if path != [] && path[0] == "meta" then Hidden
    else
      match page.front.visibility
      case GmOnly => Hidden
      case Foreshadowed => Checked(host, Page(WithoutGmFields(page.front).(visibility := Foreshadowed), UNKNOWN))
      case PlayerKnown =>
        Checked(host, Page(WithoutGmFields(page.front), Text.Strip(host.withoutComments(page.body))))
  }

  /** The player's view of a master file. */
  function ViewOf(host: Host, path: Path, text: string): View {
    if path != [] && path[0] == "meta" then Hidden
    else
      match LoadFile(host.yaml, Newlines.Normalize(text))
      case None => Broken
      case Some(page) => PageView(host, path, page)
  }

  /** The projected pages in path order; None as soon as one page cannot be projected. */
  function Project(host: Host, master: Files, paths: seq<Path>): Option<seq<Projected>>
    requires forall p :: p in paths ==> p in master
  {
    if paths == [] then Some([])
    else
      var last := paths[|paths| - 1];
      match (Project(host, master, paths[..|paths| - 1]), ViewOf(host, last, master[last]))
      case (Some(pages), Shown(page)) => Some(pages + [Projected(last, page)])
      case (Some(pages), Hidden) => Some(pages)
      case _ => None
  }

  /** What a vault directory scan returns: every Markdown file once, in any order. */
  ghost predicate ScanOf(listing: seq<Path>, files: Files) {
    && (forall i, j :: 0 <= i < j < |listing| ==> listing[i] != listing[j])
    && (forall p :: p in listing <==> p in files && IsMarkdown(p))
  }

  // ---------------------------------------------------------------- the player vault

  /** A file put in place through its temporary file, which is gone afterwards. */
  function Put(files: Files, path: Path, text: string): Files {
    (files - {TmpOf(path)})[path := text]
  }

  function Cleared(files: Files): Files {
    map p | p in files && !IsMarkdown(p) :: files[p]
  }

  function Without(files: Files, removed: seq<Path>): Files {
    map p | p in files && p !in removed :: files[p]
  }

  /** A write that worked, or failed with the target replaced or not, and its temporary file gone or not. */
  ghost predicate Attempted(before: Files, path: Path, text: string, after: Files) {
    || after == Put(before, path, text)
    || after == before - {TmpOf(path)}
    || (TmpOf(path) in after && after == before[TmpOf(path) := after[TmpOf(path)]])
  }

  function WithPages(yaml: Yaml, files: Files, pages: seq<Projected>): Files {
    if pages == [] then files
    else
      var last := pages[|pages| - 1];
      Put(WithPages(yaml, files, pages[..|pages| - 1]), last.path, AsMarkdown(yaml, last.page))
  }

  /** The player vault after a sync. */
  function Synced(host: Host, pages: seq<Projected>, player: Files): Files {
    Put(Put(WithPages(host.yaml, Cleared(player), pages), INDEX, host.indexText(pages)), LOG, host.logText(pages))
  }

  /** The file at a path is what the projection puts there. */
  ghost predicate ShownAt(host: Host, pages: seq<Projected>, path: Path, text: string) {
    || (exists q :: q in pages && q.path == path && text == AsMarkdown(host.yaml, q.page))
    || (path == INDEX && text == host.indexText(pages))
    || (path == LOG && text == host.logText(pages))
  }

  /** Every Markdown file is a projected page at its path, or the index or log of the projected pages. */
  ghost predicate ShowsOnly(host: Host, pages: seq<Projected>, player: Files) {
    forall p :: p in player && IsMarkdown(p) ==> ShownAt(host, pages, p, player[p])
  }

  lemma TmpIsNotMarkdown(path: Path)
    ensures !IsMarkdown(TmpOf(path))
  {
    var tmp := TmpOf(path);
    var name := tmp[|tmp| - 1];
    assert Text.EndsWith(name, ".tmp");
    assert name[|name| - 4..][3] == name[|name| - 1] == 'p';
    forall suffix | suffix == ".md" ensures !Text.EndsWith(name, suffix) {
      assert |name| >= 3 ==> name[|name| - 3..][2] != suffix[2];
    }
  }

  /** A Markdown file is written through the file of the same name that ends in .tmp. */
  lemma TmpOfPage(folder: Path, name: string)
    requires name != ""
    ensures TmpOf(folder + [name + ".md"]) == folder + [name + ".tmp"]
  {
    var path := folder + [name + ".md"];
    assert path[..|path| - 1] == folder && path[|path| - 1] == name + ".md";
    assert (name + ".md")[|name|..] == ".md" && (name + ".md")[..|name|] == name;
  }

  /**
   The two vaults. The environment says which file operations fail, by their number, which failing
   writes fail late, when the target has been replaced, and where a temporary file stays behind.
   */
  class VaultService {
    var master: Files
    var player: Files
    var operations: nat
    const failing: iset<nat>
    const late: iset<nat>
    const leftBehind: imap<nat, string>

    constructor (stored: Files, projected: Files, failing: iset<nat>, late: iset<nat>, leftBehind: imap<nat, string>)
      ensures master == stored && player == projected && operations == 0
      ensures this.failing == failing && this.late == late && this.leftBehind == leftBehind
    {
      master, player, operations := stored, projected, 0;
      this.failing, this.late, this.leftBehind := failing, late, leftBehind;
    }

    /**
     An atomic write; the environment may make it fail before or after the file is replaced. Before
     it, the temporary file is removed, or left behind with some text when that fails too.
     */
    method WriteFile(path: Path, text: string) returns (ok: bool)
      modifies this`player, this`operations
      ensures ok <==> old(operations) !in failing
      ensures player ==
              if ok || old(operations) in late then Put(old(player), path, text)
              else if old(operations) in leftBehind then old(player)[TmpOf(path) := leftBehind[old(operations)]]
              else old(player) - {TmpOf(path)}
      ensures Attempted(old(player), path, text, player)
      ensures operations == old(operations) + 1
    {
      ok := operations !in failing;
      if ok || operations in late {
        player := Put(player, path, text);
      } else if operations in leftBehind {
        player := player[TmpOf(path) := leftBehind[operations]];
      } else {
        player := player - {TmpOf(path)};
      }
      operations := operations + 1;
    }

    /** Removing one file. */
    method Unlink(path: Path) returns (ok: bool)
      modifies this`player, this`operations
      ensures ok <==> old(operations) !in failing
      ensures player == if ok then old(player) - {path} else old(player)
      ensures operations == old(operations) + 1
    {
      ok := operations !in failing;
      if ok { player := player - {path}; }
      operations := operations + 1;
    }

    method ProjectVisiblePages(host: Host, paths: seq<Path>) returns (pages: Option<seq<Projected>>)
      requires forall p :: p in paths ==> p in master
      ensures pages == Project(host, master, paths)
    {
      var projected := [];
      for i := 0 to |paths|
        invariant Project(host, master, paths[..i]) == Some(projected)
      {
        assert paths[..i + 1][..i] == paths[..i];
        match ViewOf(host, paths[i], master[paths[i]]) {
          case Hidden =>
          case Shown(page) => projected := projected + [Projected(paths[i], page)];
          case Broken =>
            ProjectBroken(host, master, paths, i);
            return None;
        }
      }
      assert paths[..|paths|] == paths;
      return Some(projected);
    }

    /** Removes the Markdown files of the scan one by one, up to the first that cannot be removed. */
    method ClearPlayerMarkdown(listing: seq<Path>) returns (ok: bool, removed: nat)
      requires ScanOf(listing, player)
      modifies this`player, this`operations
      ensures removed <= |listing| && (ok <==> removed == |listing|)
      ensures Quiet(failing, old(operations), old(operations) + removed)
      ensures !ok ==> old(operations) + removed in failing
      ensures player == Without(old(player), listing[..removed])
      ensures ok ==> player == Cleared(old(player)) && operations == old(operations) + |listing|
    {
      removed := 0;
      while removed < |listing|
        invariant removed <= |listing| && player == Without(old(player), listing[..removed])
        invariant operations == old(operations) + removed && Quiet(failing, old(operations), operations)
      {
        var unlinked := Unlink(listing[removed]);
        if !unlinked { return false, removed; }
        assert listing[..removed + 1] == listing[..removed] + [listing[removed]];
        removed := removed + 1;
      }
      assert listing[..|listing|] == listing;
      ok := true;
    }

    method WritePages(host: Host, pages: seq<Projected>) returns (ok: bool)
      requires ShowsOnly(host, pages, player)
      modifies this`player, this`operations
      ensures ok <==> Quiet(failing, old(operations), old(operations) + |pages|)
      ensures ShowsOnly(host, pages, player)
      ensures ok ==> player == WithPages(host.yaml, old(player), pages) && operations == old(operations) + |pages|
    {
      ok := true;
      for i := 0 to |pages|
        invariant ok && player == WithPages(host.yaml, old(player), pages[..i]) && ShowsOnly(host, pages, player)
        invariant operations == old(operations) + i && Quiet(failing, old(operations), operations)
      {
        assert pages[..i + 1][..i] == pages[..i];
        ghost var before := player;
        ok := WriteFile(pages[i].path, AsMarkdown(host.yaml, pages[i].page));
        StillShowsOnly(host, pages, before, pages[i].path, AsMarkdown(host.yaml, pages[i].page), player);
        if !ok { return; }
      }
      assert pages[..|pages|] == pages;
    }

    /**
     Projects first, and touches the player vault only when the whole projection succeeds. When
     clearing stops early, the files not yet removed are left as they were.
     */
    method Sync(host: Host, masterListing: seq<Path>, playerListing: seq<Path>) returns (ok: bool, removed: nat)
      requires ScanOf(masterListing, master) && ScanOf(playerListing, player)
      modifies this`player, this`operations
      ensures removed <= |playerListing|
      ensures var pages := Project(host, master, SortedPaths(master, masterListing));
              && (pages.None? ==> !ok && removed == 0 && player == old(player))
              && (pages.Some? ==> SyncOf(host, pages.value, playerListing, failing, old(operations), ok, removed))
              && (pages.Some? && removed == |playerListing| ==> ShowsOnly(host, pages.value, player))
              && (pages.Some? && removed < |playerListing| ==>
                    player == Without(old(player), playerListing[..removed]))
              && (ok ==> player == Synced(host, pages.value, old(player)))
    {
      var found := ProjectVisiblePages(host, SortedPaths(master, masterListing));
      if found.None? { return false, 0; }
      ok, removed := Rewrite(host, found.value, playerListing);
    }

    /** Clears the player vault, then writes the projected pages, the index and the log. */
    method Rewrite(host: Host, pages: seq<Projected>, playerListing: seq<Path>) returns (ok: bool, removed: nat)
      requires ScanOf(playerListing, player)
      modifies this`player, this`operations
      ensures removed <= |playerListing|
      ensures SyncOf(host, pages, playerListing, failing, old(operations), ok, removed)
      ensures removed == |playerListing| ==> ShowsOnly(host, pages, player)
      ensures removed < |playerListing| ==> player == Without(old(player), playerListing[..removed])
      ensures ok ==> player == Synced(host, pages, old(player))
    {
      ok, removed := ClearPlayerMarkdown(playerListing);
      if !ok { return; }
      ok := WriteAll(host, pages);
    }

    /** The writes behind the clearing: pages, index, log. */
    method WriteAll(host: Host, pages: seq<Projected>) returns (ok: bool)
      requires ShowsOnly(host, pages, player)
      modifies this`player, this`operations
      ensures ok <==> Quiet(failing, old(operations), old(operations) + |pages| + 2)
      ensures ShowsOnly(host, pages, player)
      ensures ok ==>
        player == Put(Put(WithPages(host.yaml, old(player), pages), INDEX, host.indexText(pages)),
                      LOG, host.logText(pages))
    {
      ok := WritePages(host, pages);
      if ok { ok := WriteGenerated(host, pages); }
    }

    method WriteGenerated(host: Host, pages: seq<Projected>) returns (ok: bool)
      requires ShowsOnly(host, pages, player)
      modifies this`player, this`operations
      ensures ok <==> old(operations) !in failing && old(operations) + 1 !in failing
      ensures ShowsOnly(host, pages, player)
      ensures ok ==> player == Put(Put(old(player), INDEX, host.indexText(pages)), LOG, host.logText(pages))
    {
      ghost var written := player;
      ok := WriteFile(INDEX, host.indexText(pages));
      StillShowsOnly(host, pages, written, INDEX, host.indexText(pages), player);
      if !ok { return; }
      ghost var indexed := player;
      ok := WriteFile(LOG, host.logText(pages));
      StillShowsOnly(host, pages, indexed, LOG, host.logText(pages), player);
    }
  }

  /** The sync succeeds when no operation fails, and clears up to the first removal that does. */
  ghost predicate SyncOf(
      host: Host, pages: seq<Projected>, listing: seq<Path>, failing: iset<nat>, from: nat, ok: bool, removed: nat)
  {
    && (ok <==> Quiet(failing, from, from + |listing| + |pages| + 2))
    && Quiet(failing, from, from + removed) && (removed < |listing| ==> from + removed in failing)
  }

  // ---------------------------------------------------------------- a clearing that stopped early

  /** What a stopped clearing leaves: each remaining Markdown file with its old text, and every other file. */
  lemma LeftAfterStop(player: Files, listing: seq<Path>, removed: nat, path: Path)
    requires ScanOf(listing, player) && removed <= |listing|
    ensures TextAt(Without(player, listing[..removed]), path) ==
            if path in listing[..removed] then None else TextAt(player, path)
    ensures path in Without(player, listing[..removed]) && IsMarkdown(path) <==> path in listing[removed..]
  {
    assert listing == listing[..removed] + listing[removed..];
  }

  /** Then the player vault shows only projected content exactly when the files left were projected already. */
  lemma StoppedClearingShows(host: Host, pages: seq<Projected>, player: Files, listing: seq<Path>, removed: nat)
    requires ScanOf(listing, player) && removed <= |listing|
    ensures ShowsOnly(host, pages, Without(player, listing[..removed]))
            <==> forall p :: p in listing[removed..] ==> ShownAt(host, pages, p, player[p])
  {
    var left := Without(player, listing[..removed]);
    forall p ensures p in left && IsMarkdown(p) <==> p in listing[removed..] {
      LeftAfterStop(player, listing, removed, p);
    }
    if ShowsOnly(host, pages, left) {
      forall p | p in listing[removed..] ensures ShownAt(host, pages, p, player[p]) {
        assert p in left && IsMarkdown(p);
      }
    }
    if forall p :: p in listing[removed..] ==> ShownAt(host, pages, p, player[p]) {
      forall p | p in left && IsMarkdown(p) ensures ShownAt(host, pages, p, left[p]) { assert p in listing[removed..]; }
    }
  }

  /** A page that was shown earlier and is hidden by now stays in the player vault when its removal fails. */
  lemma HiddenPageSurvivesStop(
      host: Host, master: Files, masterListing: seq<Path>, player: Files, listing: seq<Path>, removed: nat, path: Path)
    requires ScanOf(masterListing, master) && Project(host, master, SortedPaths(master, masterListing)).Some?
    requires ScanOf(listing, player) && removed < |listing| && listing[removed] == path
    requires path != INDEX && path != LOG && MasterView(host, master, path).Hidden?
    ensures var pages := Project(host, master, SortedPaths(master, masterListing)).value;
            var left := Without(player, listing[..removed]);
            path in left && left[path] == player[path] && !ShowsOnly(host, pages, left)
  {
    var pages := Project(host, master, SortedPaths(master, masterListing)).value;
    ProjectionIs(host, master, masterListing, path);
    assert listing[removed..][0] == path;
    LeftAfterStop(player, listing, removed, path);
    StoppedClearingShows(host, pages, player, listing, removed);
    forall q | q in pages ensures q.path != path { assert q == Projected(q.path, q.page); }
  }

  lemma {:induction false} ProjectBroken(host: Host, master: Files, paths: seq<Path>, i: nat)
    requires forall p :: p in paths ==> p in master
    requires i < |paths| && ViewOf(host, paths[i], master[paths[i]]).Broken?
    ensures Project(host, master, paths).None?
  {
    if i < |paths| - 1 { ProjectBroken(host, master, paths[..|paths| - 1], i); }
  }

  /** The scan in path order. */
  function SortedPaths(files: Files, listing: seq<Path>): (r: seq<Path>)
    requires ScanOf(listing, files)
    ensures forall p :: p in r <==> p in files && IsMarkdown(p)
  {
    Sorting.SortElements(PathBefore, listing);
    Sorting.Sort(PathBefore, listing)
  }

  /** A write of allowed content keeps the player vault clean, whether it fails or not. */
  lemma StillShowsOnly(host: Host, pages: seq<Projected>, before: Files, path: Path, text: string, after: Files)
    requires ShowsOnly(host, pages, before)
    requires Attempted(before, path, text, after)
    requires ShownAt(host, pages, path, text)
    ensures ShowsOnly(host, pages, after)
  {
    TmpIsNotMarkdown(path);
    forall p | p in after && IsMarkdown(p) && p != path ensures p in before && after[p] == before[p] {}
  }

  // ---------------------------------------------------------------- what each master file leaves

  /** The fields of a header that are kept: all but `secrets` and those that start with `gm_`. */
  ghost predicate KeptFields(front: Frontmatter, kept: Frontmatter) {
    && kept.id == front.id && kept.kind == front.kind && kept.name == front.name
    && kept.visibility == front.visibility
    && (forall k :: k in kept.fields <==> k in front.fields && k != "secrets" && !Text.StartsWith(k, "gm_"))
    && (forall k :: k in kept.fields ==> kept.fields[k] == front.fields[k])
  }

  /** A known page is shown with the kept fields and its body without GM comments, a foreshadowed one as a stub. */
  lemma PageIsShown(host: Host, path: Path, text: string, page: Page, kept: Frontmatter)
    requires path != [] ==> path[0] != "meta"
    requires LoadFile(host.yaml, Newlines.Normalize(text)) == Some(page) && KeptFields(page.front, kept)
    ensures ViewOf(host, path, text) ==
            match page.front.visibility
            case GmOnly => Hidden
            case Foreshadowed =>
              if host.valid(kept)
                then Shown(Page(kept, "*Unknown - you have heard this name but know little more.*")) else Broken
            case PlayerKnown =>
              if host.valid(kept) then Shown(Page(kept, Text.Strip(host.withoutComments(page.body)))) else Broken
  {
    assert WithoutGmFields(page.front).fields == kept.fields;
    assert kept == WithoutGmFields(page.front);
  }

  /** A file without a header is an orphan for the GM only; a background page is never shown; a broken file fails. */
  lemma OtherViews(host: Host, path: Path, text: string)
    ensures path != [] && path[0] == "meta" ==> ViewOf(host, path, text) == Hidden
    ensures !("---\n" <= Newlines.Normalize(text)) ==> ViewOf(host, path, text) == Hidden
    ensures (path != [] ==> path[0] != "meta") && LoadFile(host.yaml, Newlines.Normalize(text)).None? ==>
              ViewOf(host, path, text) == Broken
  {
  }

  /**
   What a successful sync leaves for a page outside the background folder: nothing for a page of the
   GM, the stub with the kept fields for a foreshadowed one, kept fields and body for a known one.
   */
  lemma SyncLeaves(
      host: Host, master: Files, listing: seq<Path>, player: Files, path: Path, page: Page, kept: Frontmatter)
    requires ScanOf(listing, master) && Project(host, master, SortedPaths(master, listing)).Some?
    requires path in master && IsMarkdown(path) && path[0] != "meta" && path != ["index.md"] && path != ["log.md"]
    requires LoadFile(host.yaml, Newlines.Normalize(master[path])) == Some(page) && KeptFields(page.front, kept)
    ensures !page.front.visibility.GmOnly? ==> host.valid(kept)
    ensures TextAt(Synced(host, Project(host, master, SortedPaths(master, listing)).value, player), path) ==
            match page.front.visibility
            case GmOnly => None
            case Foreshadowed =>
              Some(AsMarkdown(host.yaml, Page(kept, "*Unknown - you have heard this name but know little more.*")))
            case PlayerKnown =>
              Some(AsMarkdown(host.yaml, Page(kept, Text.Strip(host.withoutComments(page.body)))))
  {
    var paths := SortedPaths(master, listing);
    PageIsShown(host, path, master[path], page, kept);
    ProjectHolds(host, master, paths);
    SyncedMarkdown(host, master, listing, player, path);
  }

  /** The generated files, and files that the master does not have. */
  lemma SyncGenerates(host: Host, master: Files, listing: seq<Path>, player: Files, path: Path)
    requires ScanOf(listing, master) && Project(host, master, SortedPaths(master, listing)).Some?
    ensures var pages := Project(host, master, SortedPaths(master, listing)).value;
            && TextAt(Synced(host, pages, player), ["index.md"]) == Some(host.indexText(pages))
            && TextAt(Synced(host, pages, player), ["log.md"]) == Some(host.logText(pages))
            && (IsMarkdown(path) && path !in master && path != ["index.md"] && path != ["log.md"] ==>
                  path !in Synced(host, pages, player))
  {
    GeneratedNames();
    SyncedMarkdown(host, master, listing, player, INDEX);
    SyncedMarkdown(host, master, listing, player, LOG);
    assert "index.md"[0] != "log.md"[0];
    if IsMarkdown(path) { SyncedMarkdown(host, master, listing, player, path); }
  }

  /** A master can be projected exactly when each of its pages to be shown loads and keeps a valid header. */
  lemma ProjectsExactly(host: Host, master: Files, listing: seq<Path>)
    requires ScanOf(listing, master)
    ensures Project(host, master, SortedPaths(master, listing)).Some? <==>
            forall p :: p in master && IsMarkdown(p) && p[0] != "meta" ==>
              var page := LoadFile(host.yaml, Newlines.Normalize(master[p]));
              page.Some? && (page.value.front.visibility.GmOnly? || host.valid(WithoutGmFields(page.value.front)))
  {
    ProjectHolds(host, master, SortedPaths(master, listing));
    forall p | p in master && IsMarkdown(p)
      ensures !ViewOf(host, p, master[p]).Broken? <==>
              p[0] != "meta" ==>
                var page := LoadFile(host.yaml, Newlines.Normalize(master[p]));
                page.Some? && (page.value.front.visibility.GmOnly? || host.valid(WithoutGmFields(page.value.front)))
    {
      var page := LoadFile(host.yaml, Newlines.Normalize(master[p]));
      if page.Some? {
        assert KeptFields(page.value.front, WithoutGmFields(page.value.front));
        if p[0] != "meta" {
          PageIsShown(host, p, master[p], page.value, WithoutGmFields(page.value.front));
        }
      }
    }
  }

  // ---------------------------------------------------------------- order of the projection

  lemma {:induction false} PathIrreflexive(a: Path)
    ensures !PathBefore(a, a)
  {
    if a != [] { PathIrreflexive(a[1..]); }
  }

  lemma {:induction false} PathTransitive(a: Path, b: Path, c: Path)
    requires PathBefore(a, b) && PathBefore(b, c)
    ensures PathBefore(a, c)
  {
    if a != [] {
      if a[0] == b[0] == c[0] { PathTransitive(a[1..], b[1..], c[1..]); }
      else if a[0] != b[0] && b[0] != c[0] {
        Text.LessTransitive(a[0], b[0], c[0]);
        Text.LessIrreflexive(a[0]);
      }
    }
  }

  lemma {:induction false} PathConnected(a: Path, b: Path)
    requires a != b
    ensures PathBefore(a, b) || PathBefore(b, a)
  {
    if a != [] && b != [] {
      if a[0] == b[0] {
        assert a == [a[0]] + a[1..] && b == [b[0]] + b[1..];
        PathConnected(a[1..], b[1..]);
      } else {
        Text.LessConnected(a[0], b[0]);
      }
    }
  }

  /** The first different part decides, and a folder comes before what is in it. */
  lemma {:induction false} PathBeforeMeans(a: Path, b: Path) returns (i: nat)
    requires PathBefore(a, b)
    ensures i <= |a| && i < |b| && a[..i] == b[..i] && (i == |a| || Text.Less(a[i], b[i]))
  {
    i := 0;
    if a != [] && a[0] == b[0] {
      var k := PathBeforeMeans(a[1..], b[1..]);
      i := k + 1;
      assert a[..i] == [a[0]] + a[1..][..k] && b[..i] == [b[0]] + b[1..][..k];
    }
  }

  predicate ProjectedBefore(a: Projected, b: Projected) {
    PathBefore(a.path, b.path)
  }

  lemma OrdersAreStrict()
    ensures Sorting.StrictOrder(PathBefore) && Sorting.StrictOrder(ProjectedBefore)
  {
    forall x ensures !PathBefore(x, x) { PathIrreflexive(x); }
    forall x, y, z | PathBefore(x, y) && PathBefore(y, z) ensures PathBefore(x, z) { PathTransitive(x, y, z); }
  }

  lemma SortedPathsStrict(files: Files, listing: seq<Path>)
    requires ScanOf(listing, files)
    ensures Sorting.StrictlySorted(PathBefore, SortedPaths(files, listing))
  {
    OrdersAreStrict();
    forall i, j | 0 <= i < j < |listing|
      ensures PathBefore(listing[i], listing[j]) || PathBefore(listing[j], listing[i])
    {
      PathConnected(listing[i], listing[j]);
    }
    Sorting.SortStrict(PathBefore, listing);
  }

  /** The projection of every page or of none: exactly the shown pages. */
  lemma {:induction false} ProjectHolds(host: Host, master: Files, paths: seq<Path>)
    requires forall p :: p in paths ==> p in master
    ensures var r := Project(host, master, paths);
            && (r.Some? <==> forall p :: p in paths ==> !ViewOf(host, p, master[p]).Broken?)
            && (r.Some? ==>
                  forall q :: q in r.value
                              <==> q.path in paths && ViewOf(host, q.path, master[q.path]) == Shown(q.page))
  {
    if paths != [] {
      var n := |paths| - 1;
      assert forall p :: p in paths <==> p in paths[..n] || p == paths[n];
      ProjectHolds(host, master, paths[..n]);
    }
  }

  lemma {:induction false} ProjectSorted(host: Host, master: Files, paths: seq<Path>)
    requires forall p :: p in paths ==> p in master
    requires Sorting.StrictlySorted(PathBefore, paths) && Project(host, master, paths).Some?
    ensures Sorting.StrictlySorted(ProjectedBefore, Project(host, master, paths).value)
  {
    if paths != [] {
      var n := |paths| - 1;
      ProjectSorted(host, master, paths[..n]);
      ProjectHolds(host, master, paths[..n]);
      var before := Project(host, master, paths[..n]).value;
      forall k | 0 <= k < |before| ensures PathBefore(before[k].path, paths[n]) {
        assert before[k] in before;
        var i :| 0 <= i < n && paths[i] == before[k].path;
      }
    }
  }

  /** The shown pages, in path order. */
  lemma ProjectIs(host: Host, master: Files, paths: seq<Path>)
    requires forall p :: p in paths ==> p in master
    requires Sorting.StrictlySorted(PathBefore, paths)
    ensures var r := Project(host, master, paths);
            && (r.Some? <==> forall p :: p in paths ==> !ViewOf(host, p, master[p]).Broken?)
            && (r.Some? ==>
                  && Sorting.StrictlySorted(ProjectedBefore, r.value)
                  && forall q :: q in r.value
                                 <==> q.path in paths && ViewOf(host, q.path, master[q.path]) == Shown(q.page))
  {
    ProjectHolds(host, master, paths);
    if Project(host, master, paths).Some? { ProjectSorted(host, master, paths); }
  }

  // ---------------------------------------------------------------- the synced vault

  /** The master's view at a path: hidden when there is no page. */
  function MasterView(host: Host, master: Files, path: Path): View {
    if path in master && IsMarkdown(path) then ViewOf(host, path, master[path]) else Hidden
  }

  /** The Markdown text a synced player vault holds at a path. */
  function ExpectedText(host: Host, master: Files, pages: seq<Projected>, path: Path): Option<string> {
    if path == LOG then Some(host.logText(pages))
    else if path == INDEX then Some(host.indexText(pages))
    else match MasterView(host, master, path) case Shown(page) => Some(AsMarkdown(host.yaml, page)) case _ => None
  }

  function TextAt(files: Files, path: Path): Option<string> {
    if path in files then Some(files[path]) else None
  }

  predicate IsTmpOfPage(pages: seq<Projected>, path: Path) {
    pages != [] && (TmpOf(pages[|pages| - 1].path) == path || IsTmpOfPage(pages[..|pages| - 1], path))
  }

  lemma PutAt(files: Files, target: Path, text: string, path: Path)
    requires IsMarkdown(target)
    ensures TextAt(Put(files, target, text), path) ==
            if path == target then Some(text) else if path == TmpOf(target) then None else TextAt(files, path)
    ensures TmpOf(target) != target && !IsMarkdown(TmpOf(target))
  {
    TmpIsNotMarkdown(target);
  }

  function PageTextAt(yaml: Yaml, pages: seq<Projected>, path: Path): Option<string> {
    if pages == [] then None
    else
      var last := pages[|pages| - 1];
      if last.path == path then Some(AsMarkdown(yaml, last.page)) else PageTextAt(yaml, pages[..|pages| - 1], path)
  }

  lemma {:induction false} WithPagesAt(yaml: Yaml, files: Files, pages: seq<Projected>, path: Path)
    requires forall q :: q in pages ==> IsMarkdown(q.path)
    ensures var after := WithPages(yaml, files, pages);
            if IsMarkdown(path) then
              TextAt(after, path) ==
              (if PageTextAt(yaml, pages, path).Some? then PageTextAt(yaml, pages, path) else TextAt(files, path))
            else TextAt(after, path) == if IsTmpOfPage(pages, path) then None else TextAt(files, path)
  {
    if pages != [] {
      var n := |pages| - 1;
      assert forall q :: q in pages[..n] ==> q in pages;
      WithPagesAt(yaml, files, pages[..n], path);
      assert pages[n] in pages;
      PutAt(WithPages(yaml, files, pages[..n]), pages[n].path, AsMarkdown(yaml, pages[n].page), path);
    }
  }

  lemma {:induction false} PageTextIs(host: Host, pages: seq<Projected>, path: Path, view: View)
    requires Sorting.StrictlySorted(ProjectedBefore, pages)
    requires forall page :: Projected(path, page) in pages <==> view == Shown(page)
    ensures PageTextAt(host.yaml, pages, path)
            == match view case Shown(page) => Some(AsMarkdown(host.yaml, page)) case _ => None
  {
    if pages != [] {
      var n := |pages| - 1;
      var front, last := pages[..n], pages[n];
      if last.path == path {
        assert Projected(path, last.page) in pages;
      } else {
        assert forall page :: Projected(path, page) in pages <==> Projected(path, page) in front;
        PageTextIs(host, front, path, view);
      }
    }
  }

  /** A scan, its projection, and the facts that tie them. */
  lemma ProjectionIs(host: Host, master: Files, listing: seq<Path>, path: Path)
    requires ScanOf(listing, master) && Project(host, master, SortedPaths(master, listing)).Some?
    ensures var pages := Project(host, master, SortedPaths(master, listing)).value;
            && Sorting.StrictlySorted(ProjectedBefore, pages)
            && (forall q :: q in pages ==> IsMarkdown(q.path))
            && (forall page :: Projected(path, page) in pages <==> MasterView(host, master, path) == Shown(page))
  {
    SortedPathsStrict(master, listing);
    ProjectIs(host, master, SortedPaths(master, listing));
  }

  /** After a sync every Markdown path of the player vault holds exactly what the master shows there. */
  lemma SyncedMarkdown(host: Host, master: Files, listing: seq<Path>, player: Files, path: Path)
    requires ScanOf(listing, master) && Project(host, master, SortedPaths(master, listing)).Some? && IsMarkdown(path)
    ensures var pages := Project(host, master, SortedPaths(master, listing)).value;
            TextAt(Synced(host, pages, player), path) == ExpectedText(host, master, pages, path)
  {
    var pages := Project(host, master, SortedPaths(master, listing)).value;
    ProjectionIs(host, master, listing, path);
    PageTextIs(host, pages, path, MasterView(host, master, path));
    SyncedAt(host, pages, player, path);
  }

  lemma GeneratedNames()
    ensures IsMarkdown(INDEX) && IsMarkdown(LOG)
  {
    assert "index.md"[5..] == ".md" && "log.md"[3..] == ".md";
  }

  /** What a sync leaves at each path; files that are not Markdown stay, but for temporary files. */
  lemma SyncedAt(host: Host, pages: seq<Projected>, player: Files, path: Path)
    requires forall q :: q in pages ==> IsMarkdown(q.path)
    ensures TextAt(Synced(host, pages, player), path) ==
            if path == LOG then Some(host.logText(pages))
            else if path == INDEX then Some(host.indexText(pages))
            else if IsMarkdown(path) then PageTextAt(host.yaml, pages, path)
            else if path == TmpOf(LOG) || path == TmpOf(INDEX) || IsTmpOfPage(pages, path) then None
            else TextAt(player, path)
  {
    GeneratedNames();
    var cleared := Cleared(player);
    var written := WithPages(host.yaml, cleared, pages);
    WithPagesAt(host.yaml, cleared, pages, path);
    PutAt(written, INDEX, host.indexText(pages), path);
    PutAt(Put(written, INDEX, host.indexText(pages)), LOG, host.logText(pages), path);
  }

  lemma SameTexts(a: Files, b: Files)
    requires forall p :: TextAt(a, p) == TextAt(b, p)
    ensures a == b
  {
    forall p ensures p in a <==> p in b { assert TextAt(a, p) == TextAt(b, p); }
    forall p | p in a ensures a[p] == b[p] { assert TextAt(a, p) == TextAt(b, p); }
  }

  /** A second sync of the same master changes nothing. */
  lemma SyncTwice(host: Host, pages: seq<Projected>, player: Files)
    requires forall q :: q in pages ==> IsMarkdown(q.path)
    ensures Synced(host, pages, Synced(host, pages, player)) == Synced(host, pages, player)
  {
    var once := Synced(host, pages, player);
    forall p ensures TextAt(Synced(host, pages, once), p) == TextAt(once, p) {
      SyncedAt(host, pages, player, p);
      SyncedAt(host, pages, once, p);
    }
    SameTexts(Synced(host, pages, once), once);
  }

  /** A shown page does not read as a GM page, and no GM field is left in the header that was read. */
  lemma ShownIsSafe(host: Host, path: Path, text: string)
    ensures var v := ViewOf(host, path, text);
            v.Shown? ==>
              && (path != [] ==> path[0] != "meta")
              && v.page.front.visibility != GmOnly
              && (forall k :: k in v.page.front.fields ==> !IsGmField(k))
              && (v.page.front.visibility == Foreshadowed ==> v.page.body == UNKNOWN)
  {
  }

  /** Two masters with the same player view at every path give the same player vault. */
  lemma SyncShowsViewsOnly(host: Host, a: Files, b: Files, listingA: seq<Path>, listingB: seq<Path>)
    requires ScanOf(listingA, a) && ScanOf(listingB, b)
    requires forall p :: MasterView(host, a, p) == MasterView(host, b, p)
    ensures Project(host, a, SortedPaths(a, listingA)) == Project(host, b, SortedPaths(b, listingB))
  {
    var pathsA, pathsB := SortedPaths(a, listingA), SortedPaths(b, listingB);
    SortedPathsStrict(a, listingA);
    SortedPathsStrict(b, listingB);
    ProjectIs(host, a, pathsA);
    ProjectIs(host, b, pathsB);
    NoneBroken(host, a, b, pathsA, pathsB);
    NoneBroken(host, b, a, pathsB, pathsA);
    var r, t := Project(host, a, pathsA), Project(host, b, pathsB);
    if r.Some? {
      forall q ensures q in r.value <==> q in t.value {
        assert MasterView(host, a, q.path) == MasterView(host, b, q.path);
      }
      OrdersAreStrict();
      Sorting.StrictUnique(ProjectedBefore, r.value, t.value);
    }
  }

  /** A page the player is never shown: a background page or one for the GM only. */
  ghost predicate SecretPage(host: Host, path: Path, text: string) {
    || (path != [] && path[0] == "meta")
    || (LoadFile(host.yaml, Newlines.Normalize(text)).Some?
        && LoadFile(host.yaml, Newlines.Normalize(text)).value.front.visibility.GmOnly?)
  }

  /** The two pages differ in GM fields and GM comments only, and foreshadowed ones anywhere in the body. */
  ghost predicate SecretsApart(host: Host, x: Page, y: Page) {
    && WithoutGmFields(x.front) == WithoutGmFields(y.front)
    && (x.front.visibility.Foreshadowed? || host.withoutComments(x.body) == host.withoutComments(y.body))
  }

  /** The texts at a path are the same, or differ only in what is kept from the player. */
  ghost predicate SecretsDiffer(host: Host, path: Path, text: string, other: string) {
    || text == other
    || (SecretPage(host, path, text) && SecretPage(host, path, other))
    || (var x, y := LoadFile(host.yaml, Newlines.Normalize(text)), LoadFile(host.yaml, Newlines.Normalize(other));
        x.Some? && y.Some? && SecretsApart(host, x.value, y.value))
  }

  /** The master vaults differ only in what is kept from the player, and in secret pages that one of them lacks. */
  ghost predicate MastersDifferInSecrets(host: Host, a: Files, b: Files) {
    forall p :: IsMarkdown(p) ==>
      && (p in a && p in b ==> SecretsDiffer(host, p, a[p], b[p]))
      && (p in a && p !in b ==> SecretPage(host, p, a[p]))
      && (p in b && p !in a ==> SecretPage(host, p, b[p]))
  }

  lemma SecretsUnseen(host: Host, path: Path, text: string, other: string)
    requires SecretsDiffer(host, path, text, other)
    ensures ViewOf(host, path, text) == ViewOf(host, path, other)
  {
    var x, y := LoadFile(host.yaml, Newlines.Normalize(text)), LoadFile(host.yaml, Newlines.Normalize(other));
    if x.Some? && y.Some? && SecretsApart(host, x.value, y.value) {
      assert x.value.front.visibility == WithoutGmFields(x.value.front).visibility == y.value.front.visibility;
    }
  }

  /** What the files, as they read, keep from the player has no influence on the player vault. */
  lemma SecretsDoNotShow(host: Host, a: Files, b: Files, listingA: seq<Path>, listingB: seq<Path>, player: Files)
    requires ScanOf(listingA, a) && ScanOf(listingB, b) && MastersDifferInSecrets(host, a, b)
    ensures var r, t := Project(host, a, SortedPaths(a, listingA)), Project(host, b, SortedPaths(b, listingB));
            && (r.Some? <==> t.Some?)
            && (r.Some? ==> Synced(host, r.value, player) == Synced(host, t.value, player))
  {
    forall p ensures MasterView(host, a, p) == MasterView(host, b, p) {
      if IsMarkdown(p) && p in a && p in b { SecretsUnseen(host, p, a[p], b[p]); }
    }
    SyncShowsViewsOnly(host, a, b, listingA, listingB);
  }

  lemma NoneBroken(host: Host, a: Files, b: Files, pathsA: seq<Path>, pathsB: seq<Path>)
    requires forall p :: p in pathsA <==> p in a && IsMarkdown(p)
    requires forall p :: p in pathsB <==> p in b && IsMarkdown(p)
    requires forall p :: MasterView(host, a, p) == MasterView(host, b, p)
    ensures (forall p :: p in pathsA ==> !ViewOf(host, p, a[p]).Broken?)
            ==> forall p :: p in pathsB ==> !ViewOf(host, p, b[p]).Broken?
  {
    if forall p :: p in pathsA ==> !ViewOf(host, p, a[p]).Broken? {
      forall p | p in pathsB ensures !ViewOf(host, p, b[p]).Broken? {
        assert MasterView(host, a, p) == MasterView(host, b, p);
      }
    }
  }

  /**
   Background pages, whose id is one path part, go to a place that is never projected, whatever their visibility
   and text.
   */
  lemma BackgroundIsHidden(host: Host, page: Page, text: string)
    requires IsBackground(page.front) && '/' !in page.front.id
    ensures RelativePath(page).Some?
    ensures Text.Split(RelativePath(page).value, '/') == ["meta", page.front.id + ".md"]
    ensures ViewOf(host, Text.Split(RelativePath(page).value, '/'), text) == Hidden
  {
    var path, name := RelativePath(page).value, page.front.id + ".md";
    assert path == "meta" + ['/'] + name;
    Text.SplitFirst("meta", '/', name);
    Text.SplitNone(name, '/');
  }
}
