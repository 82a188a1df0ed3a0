/** Vault pages, their place in the vault and their text form. */
module VaultPage {
  import opened Basics
  import Text

  datatype Visibility = PlayerKnown | Foreshadowed | GmOnly

  /** A frontmatter value: null, a string, a list of strings, or anything else YAML can hold. */
  datatype FieldValue = Null | Str(text: string) | Items(items: seq<string>) | Opaque(code: int)

  /** The typed header fields, and every other field by name. */
  datatype Frontmatter = Frontmatter(
    id: string, kind: string, name: string, visibility: Visibility, fields: map<string, FieldValue>)

  datatype Page = Page(front: Frontmatter, body: string)

  /** The YAML library and the page models: text out of a header, and a header out of text or an error. */
  datatype Yaml = Yaml(dump: Frontmatter -> string, load: string -> Option<Frontmatter>)

  const SEP := "---\n"

  function Subfolder(kind: string): Option<string> {
    match kind
    case "npc" => Some("npcs")
    case "pc" => Some("pcs")
    case "location" => Some("locations")
    case "faction" => Some("factions")
    case "item" => Some("items")
    case "quest" => Some("quests")
    case "callback" => Some("callbacks")
    case "session" => Some("sessions")
    case "lore" => Some("lore")
    case _ => None
  }

  /** The campaign's own background pages, as opposed to lore the player can learn. */
  predicate IsBackground(front: Frontmatter) {
    var category := if "category" in front.fields then front.fields["category"] else Null;
    && front.kind == "lore" && category.Str?
    && (category.text == "world_bible" || category.text == "campaign_seed" || category.text == "rolling_summary")
  }

  /** Where the page lives in the master vault; an unknown page type is an error. */
  function RelativePath(page: Page): Option<string> {
    if IsBackground(page.front) then
      Some("meta/" + page.front.id + ".md")
    else
      match Subfolder(page.front.kind)
      case Some(folder) => Some(folder + "/" + page.front.id + ".md")
      case None => None
  }

  predicate PlacedIn(page: Page, folder: string) {
    RelativePath(page) == Some(folder + "/" + page.front.id + ".md")
  }

  /** The folder of each page type; no other type has one. */
  lemma FolderOfKind(page: Page)
    requires !IsBackground(page.front)
    ensures var kind := page.front.kind;
            && (kind == "npc" ==> PlacedIn(page, "npcs")) && (kind == "pc" ==> PlacedIn(page, "pcs"))
            && (kind == "location" ==> PlacedIn(page, "locations"))
            && (kind == "faction" ==> PlacedIn(page, "factions"))
            && (kind == "item" ==> PlacedIn(page, "items")) && (kind == "quest" ==> PlacedIn(page, "quests"))
            && (kind == "callback" ==> PlacedIn(page, "callbacks"))
            && (kind == "session" ==> PlacedIn(page, "sessions"))
            && (kind == "lore" ==> PlacedIn(page, "lore"))
            && (kind !in ["npc", "pc", "location", "faction", "item", "quest", "callback", "session", "lore"] ==>
                  RelativePath(page) == None)
  {
  }

  /** Lore of a background category is filed apart. */
  lemma BackgroundPlace(page: Page)
    ensures IsBackground(page.front) ==> RelativePath(page) == Some("meta/" + page.front.id + ".md")
    ensures IsBackground(page.front) <==>
            && page.front.kind == "lore" && "category" in page.front.fields
            && page.front.fields["category"].Str?
            && page.front.fields["category"].text in ["world_bible", "campaign_seed", "rolling_summary"]
  {
  }

  /** `exclude_none`: null fields are not written. */
  function WithoutNulls(front: Frontmatter): (r: Frontmatter)
    ensures r.id == front.id && r.kind == front.kind && r.name == front.name && r.visibility == front.visibility
    ensures forall k :: k in r.fields <==> k in front.fields && front.fields[k] != Null
    ensures forall k :: k in r.fields ==> r.fields[k] == front.fields[k]
  {
    front.(fields := map k | k in front.fields && front.fields[k] != Null :: front.fields[k])
  }

  /** A header text and a body as file text. */
  function Framed(frontText: string, body: string): string {
    SEP + frontText + SEP + "\n" + body
  }

  function AsMarkdown(yaml: Yaml, page: Page): string {
    Framed(yaml.dump(WithoutNulls(page.front)), page.body)
  }

  /** `text.split("---\n", 2)` of a text that starts with the separator; None with fewer than three parts. */
  function SplitFront(text: string): Option<(string, string)> {
    if Text.StartsWith(text, SEP) then
      var rest := text[|SEP|..];
      var i := Text.Find(rest, SEP);
      if i < |rest| then Some((rest[..i], rest[i + |SEP|..])) else None
    else None
  }

  const ORPHAN := Frontmatter("orphan", "lore", "Orphan", GmOnly, map[])

  /** Parses a page file; None when the split or the header raises. */
  function LoadFile(yaml: Yaml, text: string): Option<Page> {
    if !Text.StartsWith(text, SEP) then Some(Page(ORPHAN, text))
    else
      match SplitFront(text)
      case None => None
      case Some((front, body)) =>
        match yaml.load(front)
        case None => None
        case Some(fm) => Some(Page(fm, body))
  }

  /** A header text free of the separator never lets one straddle its end. */
  lemma FindInFramed(front: string, tail: string)
    requires !Text.Contains(front, SEP)
    ensures Text.Find(front + SEP + tail, SEP) == |front|
  {
    var rest := front + SEP + tail;
    assert rest[|front|..] == SEP + tail;
    forall i | 0 <= i < |front| ensures !(SEP <= rest[i..]) {
      if i + |SEP| <= |front| {
        assert !(SEP <= front[i..]);
        assert rest[i..][..|SEP|] == front[i..][..|SEP|];
      } else {
        assert rest[i..][3] == rest[i + 3] == '-';
      }
    }
    Text.FindIs(rest, SEP, |front|);
  }

  lemma SplitFramed(front: string, body: string)
    requires !Text.Contains(front, SEP)
    ensures SplitFront(Framed(front, body)) == Some((front, "\n" + body))
  {
    var rest := front + SEP + ("\n" + body);
    assert Framed(front, body) == SEP + rest;
    assert (SEP + rest)[|SEP|..] == rest;
    FindInFramed(front, "\n" + body);
    assert rest[..|front|] == front && rest[|front| + |SEP|..] == "\n" + body;
  }

  lemma FindEarly(front: string, tail: string)
    requires Text.Contains(front, SEP)
    ensures Text.Find(front + tail, SEP) < |front|
  {
    var i :| 0 <= i <= |front| && SEP <= front[i..];
    assert (front + tail)[i..] == front[i..] + tail;
    Text.FindAtMost(front + tail, SEP, i);
  }

  lemma CutInFront(front: string, tail: string, i: nat, j: nat)
    requires i <= j <= |front|
    ensures (front + tail)[..i] == front[..i] && (front + tail)[j..] == front[j..] + tail
  {
  }

  lemma PrefixOfConcat(p: string, a: string, b: string)
    requires |p| <= |a|
    ensures p <= a + b <==> p <= a
  {
    assert (a + b)[..|p|] == a[..|p|];
  }

  lemma FindInFront(front: string, tail: string)
    requires Text.Contains(front, SEP)
    ensures Text.Find(front + tail, SEP) == Text.Find(front, SEP) && Text.Find(front, SEP) + |SEP| <= |front|
  {
    var i := Text.Find(front, SEP);
    Text.FindFirst(front, SEP);
    CutInFront(front, tail, i, i);
    forall j | 0 <= j < i ensures !(SEP <= (front + tail)[j..]) {
      CutInFront(front, tail, j, j);
      assert !(SEP <= front[j..]);
      PrefixOfConcat(SEP, front[j..], tail);
    }
    Text.FindIs(front + tail, SEP, i);
  }

  lemma FramedRest(front: string, body: string)
    ensures Text.StartsWith(Framed(front, body), SEP)
    ensures Framed(front, body)[|SEP|..] == front + (SEP + "\n" + body)
  {
  }

  /** A separator in the header ends it early, and the rest of the header belongs to the body. */
  lemma SplitBroken(front: string, body: string)
    requires Text.Contains(front, SEP)
    ensures Text.Find(front, SEP) + |SEP| <= |front|
    ensures var i := Text.Find(front, SEP);
            SplitFront(Framed(front, body)) == Some((front[..i], front[i + |SEP|..] + (SEP + "\n" + body)))
  {
    var tail := SEP + "\n" + body;
    FindInFront(front, tail);
    CutInFront(front, tail, Text.Find(front, SEP), Text.Find(front, SEP) + |SEP|);
    FramedRest(front, body);
  }

  /**
   Splitting undoes framing, with the body one newline longer, exactly when the header text
   does not contain the separator.
   */
  lemma FramingExact(front: string, body: string)
    ensures SplitFront(Framed(front, body)) == Some((front, "\n" + body)) <==> !Text.Contains(front, SEP)
  {
    if Text.Contains(front, SEP) {
      var tail := SEP + "\n" + body;
      FindEarly(front, tail);
      assert Framed(front, body)[|SEP|..] == front + tail;
    } else {
      SplitFramed(front, body);
    }
  }
}
