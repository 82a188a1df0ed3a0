/** The graph of vault pages: incremental updates, reloading, and neighbourhood queries. */
module VaultGraph {
  import opened Basics
  import opened VaultPage
  import Text
  import Wikilinks

  /** What the graph takes from a header, which it reads without the page models. */
  datatype Header = Header(id: string, hidden: bool, kind: string, name: string, fields: map<string, FieldValue>)

  function HeaderOf(front: Frontmatter): Header {
    Header(front.id, front.visibility.GmOnly?, front.kind, front.name, front.fields)
  }

  /** A header with the wikilink targets found in the body behind it. */
  datatype LinkedPage = LinkedPage(front: Header, links: seq<string>)

  datatype Attributes = Attributes(kind: string, name: string)

  type Edge = (string, string)

  /** Nodes with their attributes (None for a node that is only a link target), and labelled edges. */
  datatype Graph = Graph(nodes: map<string, Option<Attributes>>, edges: map<Edge, string>)

  const EMPTY := Graph(map[], map[])

  // ---------------------------------------------------------------- the edges of a page

  function ListField(front: Header, name: string): seq<string> {
    if name in front.fields && front.fields[name].Items? then front.fields[name].items else []
  }

  /** A single-valued reference counts only when it is a non-empty string. */
  function RefField(front: Header, name: string): seq<string> {
    if name in front.fields && front.fields[name].Str? && front.fields[name].text != "" then [front.fields[name].text]
    else []
  }

  function Labelled(id: string, targets: seq<string>, relation: string): seq<(string, string)> {
    if targets == [] then []
    else (if targets[0] == id then [] else [(targets[0], relation)]) + Labelled(id, targets[1..], relation)
  }

  lemma {:induction false} LabelledIs(id: string, targets: seq<string>, relation: string)
    ensures forall e :: e in Labelled(id, targets, relation) <==> e.0 != id && e.0 in targets && e.1 == relation
  {
    if targets != [] { LabelledIs(id, targets[1..], relation); }
  }

  /** A reference field: the targets it names, and the relation it states. */
  datatype Reference = Reference(targets: seq<string>, relation: string)

  /** The reference fields of a page type, in the order they are read. */
  function References(fm: Header): seq<Reference> {
    match fm.kind
    case "location" => [Reference(ListField(fm, "connects_to"), "connects_to")]
    case "faction" => [Reference(ListField(fm, "known_members"), "known_member")]
    case "quest" =>
      [Reference(ListField(fm, "related_entities"), "related_entity"),
       Reference(ListField(fm, "callbacks"), "callback")]
    case "callback" => [Reference(RefField(fm, "related_quest"), "related_quest")]
    case "item" => [Reference(RefField(fm, "held_by"), "held_by"), Reference(RefField(fm, "given_by"), "given_by")]
    case "npc" =>
      [Reference(ListField(fm, "factions"), "faction"), Reference(RefField(fm, "location_current"), "location_current")]
    case _ => []
  }

  function ReferenceEdges(id: string, references: seq<Reference>): seq<(string, string)> {
    if references == [] then []
    else Labelled(id, references[0].targets, references[0].relation) + ReferenceEdges(id, references[1..])
  }

  ghost predicate States(references: seq<Reference>, target: string, relation: string) {
    exists r :: r in references && r.relation == relation && target in r.targets
  }

  /** Targets and relations in the order the edges are added: the links of the body, then the reference fields. */
  function EdgeList(page: LinkedPage): seq<(string, string)> {
    Labelled(page.front.id, Wikilinks.Targets(page.links), "wikilink")
      + ReferenceEdges(page.front.id, References(page.front))
  }

  /** One label per target: a later edge to the same target relabels it. */
  function LinkMap(edges: seq<(string, string)>): map<string, string> {
    if edges == [] then map[]
    else LinkMap(edges[..|edges| - 1])[edges[|edges| - 1].0 := edges[|edges| - 1].1]
  }

  lemma {:induction false} ReferenceEdgesAre(id: string, references: seq<Reference>, target: string, relation: string)
    ensures (target, relation) in ReferenceEdges(id, references)
            <==> target != id && States(references, target, relation)
  {
    if references != [] {
      ReferenceEdgesAre(id, references[1..], target, relation);
      LabelledIs(id, references[0].targets, references[0].relation);
      assert references == [references[0]] + references[1..];
      assert States(references, target, relation)
             <==> || States(references[1..], target, relation)
                  || (references[0].relation == relation && target in references[0].targets);
    }
  }

  /** A page links to a target exactly by a body link or a reference field, and never to itself. */
  lemma EdgesOfPage(page: LinkedPage, target: string, relation: string)
    ensures (target, relation) in EdgeList(page) <==>
            && target != page.front.id
            && (|| (relation == "wikilink" && target != ""
                    && exists i :: 0 <= i < |page.links| && Text.Strip(page.links[i]) == target)
                || States(References(page.front), target, relation))
  {
    LabelledIs(page.front.id, Wikilinks.Targets(page.links), "wikilink");
    Wikilinks.TargetsAre(page.links, target);
    ReferenceEdgesAre(page.front.id, References(page.front), target, relation);
  }

  /** The last edge to a target decides its label, so a reference field relabels a link of the body. */
  lemma {:induction false} LastEdgeLabels(first: seq<(string, string)>, second: seq<(string, string)>, target: string)
    ensures target in LinkMap(first + second) <==> target in LinkMap(first) || target in LinkMap(second)
    ensures target in LinkMap(second) ==> LinkMap(first + second)[target] == LinkMap(second)[target]
    ensures target in LinkMap(first) && target !in LinkMap(second) ==>
              LinkMap(first + second)[target] == LinkMap(first)[target]
  {
    if second == [] {
      assert first + second == first;
    } else {
      var n := |second| - 1;
      LastEdgeLabels(first, second[..n], target);
      assert (first + second)[..|first| + n] == first + second[..n];
    }
  }

  /** What one page adds to the graph: its node and its outgoing edges. */
  datatype Star = Star(id: string, attributes: Attributes, edges: seq<(string, string)>) {
    function Links(): map<string, string> {
      LinkMap(edges)
    }
  }

  function StarOf(page: LinkedPage): Star {
    Star(page.front.id, Attributes(page.front.kind, page.front.name), EdgeList(page))
  }

  /** The incremental update's view of a page. */
  function PageStar(page: Page): Star {
    StarOf(LinkedPage(HeaderOf(page.front), Wikilinks.FindLinks(page.body)))
  }

  /** A page file as a scan sees it. */
  datatype Scan = Scan(hidden: bool, star: Star)

  const NO_HEADER := Header("", false, "unknown", "", map[])

  /** The header reader: None for text that is no YAML mapping. */
  type HeaderReader = string -> Option<Header>

  function ParseFile(read: HeaderReader, text: string): Scan {
    var (header, body) :=
      match SplitFront(text)
      case Some((front, rest)) => ((match read(front) case Some(h) => h case None => NO_HEADER), Text.Strip(rest))
      case None => (NO_HEADER, Text.Strip(text));
    Scan(header.hidden, StarOf(LinkedPage(header, Wikilinks.FindLinks(body))))
  }

  /** The files of a scan, in its order; None for a file that cannot be read. */
  function ParsedFiles(read: HeaderReader, files: seq<Option<string>>): (r: seq<Option<Scan>>)
    ensures |r| == |files|
    ensures forall i :: 0 <= i < |r| ==>
      r[i] == match files[i] case Some(text) => Some(ParseFile(read, text)) case None => None
  {
    seq(|files|, i requires 0 <= i < |files| =>
      match files[i] case Some(text) => Some(ParseFile(read, text)) case None => None)
  }

  // ---------------------------------------------------------------- adding to a graph

  function NodeAdded(g: Graph, star: Star): Graph {
    g.(nodes := g.nodes[star.id := Some(star.attributes)])
  }

  /** Adding an edge creates missing end points without attributes. */
  function EdgeAdded(g: Graph, source: string, target: string, relation: string): Graph {
    var nodes := if source in g.nodes then g.nodes else g.nodes[source := None];
    var nodes' := if target in nodes then nodes else nodes[target := None];
    Graph(nodes', g.edges[(source, target) := relation])
  }

  function EdgesAdded(g: Graph, source: string, edges: seq<(string, string)>): Graph {
    if edges == [] then g
    else
      var last := edges[|edges| - 1];
      EdgeAdded(EdgesAdded(g, source, edges[..|edges| - 1]), source, last.0, last.1)
  }

  /** The incremental update for one page; a page without id is ignored. */
  function StarAdded(g: Graph, star: Star): Graph {
    if star.id == "" then g else EdgesAdded(NodeAdded(g, star), star.id, star.edges)
  }

  function StarsAdded(g: Graph, stars: seq<Star>): Graph {
    if stars == [] then g else StarAdded(StarsAdded(g, stars[..|stars| - 1]), stars[|stars| - 1])
  }

  lemma StarsAddedSnoc(g: Graph, stars: seq<Star>, star: Star)
    ensures StarsAdded(g, stars + [star]) == StarAdded(StarsAdded(g, stars), star)
  {
    assert (stars + [star])[..|stars|] == stars;
  }

  function NodesAdded(g: Graph, stars: seq<Star>): Graph {
    if stars == [] then g else NodeAdded(NodesAdded(g, stars[..|stars| - 1]), stars[|stars| - 1])
  }

  lemma NodesAddedSnoc(g: Graph, stars: seq<Star>, star: Star)
    ensures NodesAdded(g, stars + [star]) == NodeAdded(NodesAdded(g, stars), star)
  {
    assert (stars + [star])[..|stars|] == stars;
  }

  function AllEdgesAdded(g: Graph, stars: seq<Star>): Graph {
    if stars == [] then g
    else
      var last := stars[|stars| - 1];
      EdgesAdded(AllEdgesAdded(g, stars[..|stars| - 1]), last.id, last.edges)
  }

  /** A reload: every node first, then every page's edges. */
  function Loaded(stars: seq<Star>): Graph {
    AllEdgesAdded(NodesAdded(EMPTY, stars), stars)
  }

  /** The pages a scan keeps: readable, with an id, not gm_only. */
  function Kept(files: seq<Option<Scan>>): seq<Star> {
    if files == [] then []
    else
      var front := Kept(files[..|files| - 1]);
      match files[|files| - 1]
      case Some(scan) => if scan.star.id == "" || scan.hidden then front else front + [scan.star]
      case None => front
  }

  lemma KeptStep(files: seq<Option<Scan>>, i: nat)
    requires i < |files|
    ensures Kept(files[..i + 1]) ==
            match files[i]
            case Some(scan) =>
              if scan.star.id == "" || scan.hidden then Kept(files[..i]) else Kept(files[..i]) + [scan.star]
            case None => Kept(files[..i])
  {
    assert files[..i + 1][..i] == files[..i];
  }

  // ---------------------------------------------------------------- distance

  function Neighbors(edges: set<Edge>, node: string): (r: set<string>)
    ensures forall x :: x in r <==> (node, x) in edges || (x, node) in edges
  {
    (set e | e in edges && e.0 == node :: e.1) + (set e | e in edges && e.1 == node :: e.0)
  }

  function NeighborsOf(edges: set<Edge>, nodes: set<string>): (r: set<string>)
  {
    set n, x | n in nodes && x in Neighbors(edges, n) :: x
  }

  /** The nodes within `k` undirected steps of `start`. */
  function Ball(edges: set<Edge>, start: string, k: nat): set<string>
    decreases k
  {
    if k == 0 then {start} else Ball(edges, start, k - 1) + NeighborsOf(edges, Ball(edges, start, k - 1))
  }

  ghost predicate Linked(edges: set<Edge>, walk: seq<string>, i: nat)
    requires i < |walk| - 1
  {
    walk[i + 1] in Neighbors(edges, walk[i])
  }

  ghost predicate IsWalk(edges: set<Edge>, walk: seq<string>, a: string, b: string) {
    && walk != [] && walk[0] == a && walk[|walk| - 1] == b
    && forall i :: 0 <= i < |walk| - 1 ==> Linked(edges, walk, i)
  }

  /** `b` is reached from `a` over at most `k` edges, in either direction. */
  ghost predicate Within(edges: set<Edge>, a: string, b: string, k: nat) {
    exists walk :: IsWalk(edges, walk, a, b) && |walk| <= k + 1
  }

  lemma {:induction false} WalkInBall(edges: set<Edge>, walk: seq<string>, a: string, b: string)
    requires IsWalk(edges, walk, a, b)
    ensures b in Ball(edges, a, |walk| - 1)
  {
    if |walk| > 1 {
      var front := walk[..|walk| - 1];
      forall i | 0 <= i < |front| - 1 ensures Linked(edges, front, i) { assert Linked(edges, walk, i); }
      WalkInBall(edges, front, a, front[|front| - 1]);
      assert Linked(edges, walk, |walk| - 2);
    }
  }

  lemma {:induction false} BallMonotone(edges: set<Edge>, start: string, j: nat, k: nat)
    requires j <= k
    ensures Ball(edges, start, j) <= Ball(edges, start, k)
    decreases k
  {
    if j < k { BallMonotone(edges, start, j, k - 1); }
  }

  lemma LastStep(edges: set<Edge>, start: string, k: nat, b: string) returns (n: string)
    requires k > 0 && b in Ball(edges, start, k) && b !in Ball(edges, start, k - 1)
    ensures n in Ball(edges, start, k - 1) && b in Neighbors(edges, n)
  {
    assert b in NeighborsOf(edges, Ball(edges, start, k - 1));
    n :| n in Ball(edges, start, k - 1) && b in Neighbors(edges, n);
  }

  lemma {:induction false} BallHasWalk(edges: set<Edge>, start: string, k: nat, b: string)
    requires b in Ball(edges, start, k)
    ensures Within(edges, start, b, k)
    decreases k
  {
    if k == 0 {
      assert IsWalk(edges, [start], start, b);
    } else if b in Ball(edges, start, k - 1) {
      BallHasWalk(edges, start, k - 1, b);
    } else {
      var n := LastStep(edges, start, k, b);
      BallHasWalk(edges, start, k - 1, n);
      var walk :| IsWalk(edges, walk, start, n) && |walk| <= k;
      WalkExtended(edges, walk, start, n, b);
    }
  }

  lemma WalkExtended(edges: set<Edge>, walk: seq<string>, a: string, b: string, c: string)
    requires IsWalk(edges, walk, a, b) && c in Neighbors(edges, b)
    ensures IsWalk(edges, walk + [c], a, c)
  {
    var longer := walk + [c];
    forall i | 0 <= i < |longer| - 1 ensures Linked(edges, longer, i) {
      if i < |walk| - 1 { assert Linked(edges, walk, i); }
    }
  }

  lemma NeighborsOfUnion(edges: set<Edge>, a: set<string>, b: set<string>)
    ensures NeighborsOf(edges, a + b) == NeighborsOf(edges, a) + NeighborsOf(edges, b)
  {
  }

  /**
   One round of the search: although the next frontier may hold members of the current one,
   what has been visited or is about to be is the next ball.
   */
  lemma BallStep(edges: set<Edge>, start: string, i: nat, visited: set<string>, frontier: set<string>)
    requires visited + frontier == Ball(edges, start, i)
    requires visited == if i == 0 then {} else Ball(edges, start, i - 1)
    ensures (visited + frontier) + (NeighborsOf(edges, frontier) - visited) == Ball(edges, start, i + 1)
  {
    NeighborsOfUnion(edges, visited, frontier);
    assert NeighborsOf(edges, visited) <= visited + frontier;
  }

  /** The breadth-first ball is exactly the set of nodes a walk of that length reaches. */
  lemma BallIsWithin(edges: set<Edge>, a: string, k: nat, b: string)
    ensures b in Ball(edges, a, k) <==> Within(edges, a, b, k)
  {
    if b in Ball(edges, a, k) { BallHasWalk(edges, a, k, b); }
    if Within(edges, a, b, k) {
      var walk :| IsWalk(edges, walk, a, b) && |walk| <= k + 1;
      WalkInBall(edges, walk, a, b);
      BallMonotone(edges, a, |walk| - 1, k);
    }
  }

  lemma WithinSymmetric(edges: set<Edge>, a: string, b: string, k: nat)
    requires Within(edges, a, b, k)
    ensures Within(edges, b, a, k)
  {
    var walk :| IsWalk(edges, walk, a, b) && |walk| <= k + 1;
    var back := Reverse(walk);
    forall i | 0 <= i < |back| - 1 ensures Linked(edges, back, i) {
      assert Linked(edges, walk, |walk| - 2 - i);
    }
    assert IsWalk(edges, back, b, a);
  }

  /** Neighbourhood is symmetric. */
  lemma BallSymmetric(edges: set<Edge>, a: string, b: string, k: nat)
    ensures a in Ball(edges, b, k) <==> b in Ball(edges, a, k)
  {
    BallIsWithin(edges, a, k, b);
    BallIsWithin(edges, b, k, a);
    if Within(edges, a, b, k) { WithinSymmetric(edges, a, b, k); }
    if Within(edges, b, a, k) { WithinSymmetric(edges, b, a, k); }
  }

  // ---------------------------------------------------------------- the mutable graph

  class VaultGraph {
    var graph: Graph

    constructor ()
      ensures graph == EMPTY
    {
      graph := EMPTY;
    }

    method AddEdges(star: Star)
      modifies this
      ensures graph == EdgesAdded(old(graph), star.id, star.edges)
    {
      for i := 0 to |star.edges|
        invariant graph == EdgesAdded(old(graph), star.id, star.edges[..i])
      {
        assert star.edges[..i + 1][..i] == star.edges[..i];
        graph := EdgeAdded(graph, star.id, star.edges[i].0, star.edges[i].1);
      }
      assert star.edges[..|star.edges|] == star.edges;
    }

    /** The incremental update for one page, given as its node and outgoing edges. */
    method UpdatePage(star: Star)
      modifies this
      ensures graph == StarAdded(old(graph), star)
    {
      if star.id == "" { return; }
      graph := NodeAdded(graph, star);
      AddEdges(star);
    }

    /** The first pass of a load: reads each file and adds a node per kept page. */
    method AddNodes(read: HeaderReader, files: seq<Option<string>>) returns (stars: seq<Star>)
      modifies this
      ensures stars == Kept(ParsedFiles(read, files)) && graph == NodesAdded(old(graph), stars)
    {
      ghost var scans := ParsedFiles(read, files);
      stars := [];
      for i := 0 to |files|
        invariant stars == Kept(scans[..i]) && graph == NodesAdded(old(graph), stars)
      {
        KeptStep(scans, i);
        if files[i].None? { continue; }
        var scan := ParseFile(read, files[i].value);
        if scan.star.id == "" || scan.hidden { continue; }
        NodesAddedSnoc(old(graph), stars, scan.star);
        graph := NodeAdded(graph, scan.star);
        stars := stars + [scan.star];
      }
      assert scans[..|files|] == scans;
    }

    /** The second pass of a load: every page's edges. */
    method AddAllEdges(stars: seq<Star>)
      modifies this
      ensures graph == AllEdgesAdded(old(graph), stars)
    {
      for i := 0 to |stars|
        invariant graph == AllEdgesAdded(old(graph), stars[..i])
      {
        assert stars[..i + 1][..i] == stars[..i];
        AddEdges(stars[i]);
      }
      assert stars[..|stars|] == stars;
    }

    /** Clears the graph, adds a node per kept page, then every page's edges. */
    method LoadFromVault(read: HeaderReader, rootExists: bool, files: seq<Option<string>>) returns (count: nat)
      modifies this
      ensures rootExists ==>
        graph == Loaded(Kept(ParsedFiles(read, files))) && count == |Kept(ParsedFiles(read, files))|
      ensures !rootExists ==> graph == EMPTY && count == 0
    {
      graph := EMPTY;
      if !rootExists { return 0; }
      var stars := AddNodes(read, files);
      AddAllEdges(stars);
      count := |stars|;
    }

    /** Everything but the start within `depth` undirected hops. */
    method GetNeighbors(entity: string, depth: int) returns (r: set<string>)
      ensures entity !in graph.nodes ==> r == {}
      ensures entity in graph.nodes ==>
                r == Ball(graph.edges.Keys, entity, if depth < 0 then 0 else depth) - {entity}
      ensures forall n :: n in r <==>
                && entity in graph.nodes && n != entity && depth > 0
                && Within(graph.edges.Keys, entity, n, depth)
    {
      if entity !in graph.nodes { return {}; }
      var edges := graph.edges.Keys;
      var visited, frontier := {}, {entity};
      var rounds := if depth < 0 then 0 else depth;
      for i := 0 to rounds
        invariant visited + frontier == Ball(edges, entity, i)
        invariant visited == if i == 0 then {} else Ball(edges, entity, i - 1)
      {
        var next := Expand(edges, visited, frontier);
        BallStep(edges, entity, i, visited, frontier);
        visited := visited + frontier;
        frontier := next;
      }
      r := visited + frontier - {entity};
      forall n ensures n in r <==> n != entity && depth > 0 && Within(edges, entity, n, depth) {
        if depth > 0 { BallIsWithin(edges, entity, depth, n); }
      }
    }

    /** The unvisited neighbours of a frontier, node by node. */
    static method Expand(edges: set<Edge>, visited: set<string>, frontier: set<string>) returns (next: set<string>)
      ensures next == NeighborsOf(edges, frontier) - visited
    {
      next := {};
      var todo := frontier;
      while todo != {}
        invariant todo <= frontier
        invariant next == NeighborsOf(edges, frontier - todo) - visited
      {
        var node :| node in todo;
        NeighborsOfUnion(edges, frontier - todo, {node});
        assert frontier - (todo - {node}) == (frontier - todo) + {node};
        assert NeighborsOf(edges, {node}) == Neighbors(edges, node);
        next := next + (Neighbors(edges, node) - visited);
        todo := todo - {node};
      }
      assert frontier - todo == frontier;
    }
  }

  // ---------------------------------------------------------------- what an update links

  /** A list in the header holds the target. */
  ghost predicate Lists(front: Header, field: string, target: string) {
    field in front.fields && front.fields[field].Items? && target in front.fields[field].items
  }

  /** A text in the header is the target. */
  ghost predicate Names(front: Header, field: string, target: string) {
    field in front.fields && front.fields[field] == FieldValue.Str(target) && target != ""
  }

  /** What the header of each type of page refers to, and as what. */
  ghost predicate RefersTo(front: Header, target: string, relation: string) {
    || (front.kind == "location" && relation == "connects_to" && Lists(front, "connects_to", target))
    || (front.kind == "faction" && relation == "known_member" && Lists(front, "known_members", target))
    || (front.kind == "quest" && relation == "related_entity" && Lists(front, "related_entities", target))
    || (front.kind == "quest" && relation == "callback" && Lists(front, "callbacks", target))
    || (front.kind == "callback" && relation == "related_quest" && Names(front, "related_quest", target))
    || (front.kind == "item" && relation == "held_by" && Names(front, "held_by", target))
    || (front.kind == "item" && relation == "given_by" && Names(front, "given_by", target))
    || (front.kind == "npc" && relation == "faction" && Lists(front, "factions", target))
    || (front.kind == "npc" && relation == "location_current" && Names(front, "location_current", target))
  }

  /** The body holds a wikilink to the target. */
  ghost predicate BodyLinks(page: LinkedPage, target: string) {
    target != "" && exists i :: 0 <= i < |page.links| && Text.Strip(page.links[i]) == target
  }

  ghost predicate LinksAs(page: LinkedPage, target: string, relation: string) {
    && target != page.front.id
    && ((relation == "wikilink" && BodyLinks(page, target)) || RefersTo(page.front, target, relation))
  }

  /** Of two relations to one target the one read later is kept. */
  ghost const RELABELLED := iset later: string, earlier: string |
      || (later != "wikilink" && earlier == "wikilink")
      || (later == "callback" && earlier == "related_entity")
      || (later == "given_by" && earlier == "held_by")
      || (later == "location_current" && earlier == "faction")
    :: (later, earlier)

  lemma LabelledMap(id: string, targets: seq<string>, relation: string, target: string)
    ensures target in LinkMap(Labelled(id, targets, relation)) <==> target != id && target in targets
    ensures target in LinkMap(Labelled(id, targets, relation)) ==>
              LinkMap(Labelled(id, targets, relation))[target] == relation
  {
    var edges := Labelled(id, targets, relation);
    LabelledIs(id, targets, relation);
    LinkMapFrom(edges, target);
    assert target != id && target in targets ==> (target, relation) in edges;
  }

  lemma {:induction false} LinkMapFrom(edges: seq<(string, string)>, target: string)
    ensures target in LinkMap(edges) ==> (target, LinkMap(edges)[target]) in edges
    ensures target !in LinkMap(edges) ==> forall e :: e in edges ==> e.0 != target
  {
    if edges != [] {
      LinkMapFrom(edges[..|edges| - 1], target);
      assert edges == edges[..|edges| - 1] + [edges[|edges| - 1]];
    }
  }

  ghost function StatedAs(front: Header, target: string): iset<string> {
    iset r | RefersTo(front, target, r)
  }

  ghost predicate RelationsAre(refs: seq<Reference>, target: string, stated: iset<string>) {
    && |refs| <= 2
    && (forall k :: 0 <= k < |refs| ==>
          refs[k].relation != "wikilink" && (target in refs[k].targets <==> refs[k].relation in stated))
    && (forall r :: r in stated ==> exists k :: 0 <= k < |refs| && refs[k].relation == r)
  }

  /** A relation replaces that of the body, and the second of a type replaces the first. */
  ghost predicate LaterReplaces(refs: seq<Reference>, later: iset<Edge>) {
    && (forall r, q :: (r, q) in later ==> r != "wikilink" && r != q)
    && (forall r :: r != "wikilink" ==> (r, "wikilink") in later)
    && (|refs| > 1 ==> && (refs[1].relation, refs[0].relation) in later
                       && (refs[0].relation, refs[1].relation) !in later)
  }

  /** The reference fields of a type are the ones it refers by. */
  lemma ReferencesAre(front: Header, target: string)
    ensures RelationsAre(References(front), target, StatedAs(front, target))
  {
    var refs := References(front);
    forall r | RefersTo(front, target, r) ensures exists k :: 0 <= k < |refs| && refs[k].relation == r {
      assert |refs| > 0 && (refs[0].relation == r || (|refs| > 1 && refs[1].relation == r));
    }
  }

  lemma ReferencesOrdered(front: Header)
    ensures LaterReplaces(References(front), RELABELLED)
  {
  }

  /** The relation of a target is that of the last reference that names it, or else the link of the body. */
  lemma RelationOf(id: string, body: seq<string>, refs: seq<Reference>, target: string)
    requires |refs| <= 2
    ensures var links := LinkMap(Labelled(id, body, "wikilink") + ReferenceEdges(id, refs));
            var second, first := |refs| > 1 && target in refs[1].targets, |refs| > 0 && target in refs[0].targets;
            && (target in links <==> target != id && (second || first || target in body))
            && (target in links ==>
                  links[target] == if second then refs[1].relation else if first then refs[0].relation else "wikilink")
  {
    var wiki := Labelled(id, body, "wikilink");
    LabelledMap(id, body, "wikilink", target);
    LastEdgeLabels(wiki, ReferenceEdges(id, refs), target);
    if |refs| > 0 {
      LabelledMap(id, refs[0].targets, refs[0].relation, target);
      LastEdgeLabels(Labelled(id, refs[0].targets, refs[0].relation), ReferenceEdges(id, refs[1..]), target);
    }
    if |refs| > 1 {
      LabelledMap(id, refs[1].targets, refs[1].relation, target);
      assert ReferenceEdges(id, refs[1..][1..]) == [];
      assert ReferenceEdges(id, refs[1..]) == Labelled(id, refs[1].targets, refs[1].relation);
    }
  }

  /** The relations that are stated, of two reference fields and the body: the one that none of them replaces. */
  lemma LastRelation(
      first: Option<string>, second: Option<string>, body: Option<string>, all: iset<string>, later: iset<Edge>,
      relation: string)
    requires forall r :: r in all <==> first == Some(r) || second == Some(r) || body == Some(r)
    requires forall r :: (r, r) !in later
    requires body.Some? ==> && (first.Some? ==> (first.value, body.value) in later)
                            && (second.Some? ==> (second.value, body.value) in later)
                            && forall r :: (body.value, r) !in later
    requires first.Some? && second.Some? ==>
               (second.value, first.value) in later && (first.value, second.value) !in later
    ensures all == iset{} <==> first.None? && second.None? && body.None?
    ensures (if second.Some? then second else if first.Some? then first else body) == Some(relation)
            <==> relation in all && forall r :: r in all ==> (r, relation) !in later
  {
    if first.Some? { assert first.value in all; }
    if second.Some? { assert second.value in all; }
    if body.Some? { assert body.value in all; }
  }

  /** Every relation in which a page links to a target. */
  ghost function RelationsTo(page: LinkedPage, target: string): iset<string> {
    iset r | LinksAs(page, target, r)
  }

  lemma RelationsToAre(page: LinkedPage, target: string)
    ensures RelationsTo(page, target) ==
            if target == page.front.id then iset{}
            else StatedAs(page.front, target)
                 + (if target in Wikilinks.Targets(page.links) then iset{"wikilink"} else iset{})
  {
    Wikilinks.TargetsAre(page.links, target);
  }

  lemma RelationsToIs(page: LinkedPage, target: string, first: Option<string>, second: Option<string>)
    requires var refs := References(page.front);
             && first == (if |refs| > 0 && target in refs[0].targets then Some(refs[0].relation) else None)
             && second == (if |refs| > 1 && target in refs[1].targets then Some(refs[1].relation) else None)
    requires RelationsAre(References(page.front), target, StatedAs(page.front, target))
    ensures forall r :: r in StatedAs(page.front, target) <==> first == Some(r) || second == Some(r)
  {
  }

  /** Each target has one relation: the last one that the page states for it. */
  lemma LinksOfPage(page: LinkedPage, target: string, relation: string)
    ensures var links, all := StarOf(page).Links(), RelationsTo(page, target);
            && (target in links <==> all != iset{})
            && (target in links && links[target] == relation
                <==> relation in all && forall r :: r in all ==> (r, relation) !in RELABELLED)
  {
    var id, body, refs := page.front.id, Wikilinks.Targets(page.links), References(page.front);
    ReferencesAre(page.front, target);
    ReferencesOrdered(page.front);
    RelationsToAre(page, target);
    RelationOf(id, body, refs, target);
    if target != id {
      var first := if |refs| > 0 && target in refs[0].targets then Some(refs[0].relation) else None;
      var second := if |refs| > 1 && target in refs[1].targets then Some(refs[1].relation) else None;
      RelationsToIs(page, target, first, second);
      var link := if target in body then Some("wikilink") else None;
      LastRelation(first, second, link, RelationsTo(page, target), RELABELLED, relation);
    }
  }

  // ---------------------------------------------------------------- what a graph of pages is

  ghost predicate DistinctIds(stars: set<Star>) {
    forall p, q :: p in stars && q in stars && p.id == q.id ==> p == q
  }

  ghost predicate IsPage(stars: set<Star>, id: string) {
    exists p :: p in stars && p.id == id
  }

  ghost predicate IsTarget(stars: set<Star>, id: string) {
    exists p :: p in stars && id in p.Links()
  }

  ghost predicate IsLink(stars: set<Star>, e: Edge, relation: string) {
    exists p :: p in stars && p.id == e.0 && e.1 in p.Links() && p.Links()[e.1] == relation
  }

  /** Nodes come from `pages` and link targets, edges from `linked`. */
  ghost predicate Shows(g: Graph, pages: set<Star>, linked: set<Star>) {
    && (forall n :: n in g.nodes <==> IsPage(pages, n) || IsTarget(linked, n))
    && (forall n :: n in g.nodes && g.nodes[n].None? ==> !IsPage(pages, n))
    && (forall n :: n in g.nodes && g.nodes[n].Some? ==>
          exists p :: p in pages && p.id == n && g.nodes[n].value == p.attributes)
    && (forall e :: e in g.edges ==> IsLink(linked, e, g.edges[e]))
    && (forall e, relation :: IsLink(linked, e, relation) ==> e in g.edges)
  }

  /** The graph of a set of pages: a node per page and per link target, an edge per link. */
  ghost predicate Represents(g: Graph, stars: set<Star>) {
    Shows(g, stars, stars)
  }

  /** A set of pages with distinct ids has at most one graph. */
  lemma RepresentsUnique(g: Graph, h: Graph, stars: set<Star>)
    requires DistinctIds(stars) && Represents(g, stars) && Represents(h, stars)
    ensures g == h
  {
    assert g.nodes == h.nodes by {
      forall n ensures n in g.nodes <==> n in h.nodes {}
      forall n | n in g.nodes ensures g.nodes[n] == h.nodes[n] { NodesAgree(g, h, stars, n); }
    }
    assert g.edges == h.edges by {
      forall e ensures e in g.edges <==> e in h.edges {
        if e in g.edges { assert IsLink(stars, e, g.edges[e]); }
        if e in h.edges { assert IsLink(stars, e, h.edges[e]); }
      }
      forall e | e in g.edges ensures g.edges[e] == h.edges[e] { EdgesAgree(g, h, stars, e); }
    }
  }

  lemma NodesAgree(g: Graph, h: Graph, stars: set<Star>, n: string)
    requires DistinctIds(stars) && Represents(g, stars) && Represents(h, stars) && n in g.nodes && n in h.nodes
    ensures g.nodes[n] == h.nodes[n]
  {
    if g.nodes[n].Some? && h.nodes[n].Some? {
      var p :| p in stars && p.id == n && g.nodes[n].value == p.attributes;
      var q :| q in stars && q.id == n && h.nodes[n].value == q.attributes;
      assert p == q;
    }
    assert g.nodes[n].Some? ==> IsPage(stars, n);
    assert h.nodes[n].Some? ==> IsPage(stars, n);
  }

  lemma EdgesAgree(g: Graph, h: Graph, stars: set<Star>, e: Edge)
    requires DistinctIds(stars) && Represents(g, stars) && Represents(h, stars) && e in g.edges && e in h.edges
    ensures g.edges[e] == h.edges[e]
  {
    assert IsLink(stars, e, g.edges[e]) && IsLink(stars, e, h.edges[e]);
    var p :| p in stars && p.id == e.0 && e.1 in p.Links() && p.Links()[e.1] == g.edges[e];
    var q :| q in stars && q.id == e.0 && e.1 in q.Links() && q.Links()[e.1] == h.edges[e];
    assert p == q;
  }

  function Elements(stars: seq<Star>): set<Star> {
    set s | s in stars
  }

  lemma {:induction false} EdgesAddedIs(g: Graph, source: string, edges: seq<(string, string)>)
    requires source in g.nodes
    ensures var r, links := EdgesAdded(g, source, edges), LinkMap(edges);
            && (forall n :: n in r.nodes <==> n in g.nodes || n in links)
            && (forall n :: n in r.nodes ==> r.nodes[n] == if n in g.nodes then g.nodes[n] else None)
            && (forall e :: e in r.edges <==> e in g.edges || (e.0 == source && e.1 in links))
            && (forall e :: e in r.edges ==>
                  r.edges[e] == if e.0 == source && e.1 in links then links[e.1] else g.edges[e])
  {
    if edges != [] { EdgesAddedIs(g, source, edges[..|edges| - 1]); }
  }

  /** An update leaves the node of the page, a node for every target, and one edge to each. */
  lemma UpdateLinks(g: Graph, page: Page, target: string, relation: string)
    requires page.front.id != ""
    ensures var id, h := page.front.id, StarAdded(g, PageStar(page));
            var all := RelationsTo(LinkedPage(HeaderOf(page.front), Wikilinks.FindLinks(page.body)), target);
            && id in h.nodes && h.nodes[id].Some?
            && h.nodes[id].value.kind == page.front.kind && h.nodes[id].value.name == page.front.name
            && (relation in all && (forall r :: r in all ==> (r, relation) !in RELABELLED) ==>
                  (id, target) in h.edges && h.edges[(id, target)] == relation)
            && (target != id ==>
                  (target in h.nodes <==> target in g.nodes || all != iset{})
                  && (target in h.nodes ==>
                        h.nodes[target] == if target in g.nodes then g.nodes[target] else None))
            && ((id, target) in h.edges <==> (id, target) in g.edges || all != iset{})
            && (all == iset{} && (id, target) in g.edges ==> h.edges[(id, target)] == g.edges[(id, target)])
            && (forall e: Edge :: e.0 != id ==>
                  (e in h.edges <==> e in g.edges) && (e in g.edges ==> h.edges[e] == g.edges[e]))
  {
    var linked := LinkedPage(HeaderOf(page.front), Wikilinks.FindLinks(page.body));
    LinksOfPage(linked, target, relation);
    EdgesAddedIs(NodeAdded(g, StarOf(linked)), page.front.id, StarOf(linked).edges);
  }

  lemma NodeShown(g: Graph, pages: set<Star>, linked: set<Star>, star: Star)
    requires Shows(g, pages, linked) && DistinctIds(pages + {star})
    ensures Shows(NodeAdded(g, star), pages + {star}, linked)
  {
    var r := NodeAdded(g, star);
    assert forall n :: IsPage(pages + {star}, n) <==> IsPage(pages, n) || n == star.id;
    forall n | n in r.nodes && r.nodes[n].Some?
      ensures exists p :: p in pages + {star} && p.id == n && r.nodes[n].value == p.attributes
    {
      if n == star.id {
        assert star in pages + {star};
      } else {
        var p :| p in pages && p.id == n && g.nodes[n].value == p.attributes;
        assert p in pages + {star};
      }
    }
  }

  lemma EdgesShown(g: Graph, pages: set<Star>, linked: set<Star>, star: Star)
    requires Shows(g, pages, linked) && star in pages && DistinctIds(linked + {star})
    ensures Shows(EdgesAdded(g, star.id, star.edges), pages, linked + {star})
  {
    var r := EdgesAdded(g, star.id, star.edges);
    assert IsPage(pages, star.id);
    EdgesAddedIs(g, star.id, star.edges);
    assert forall n :: IsTarget(linked + {star}, n) <==> IsTarget(linked, n) || n in star.Links();
    forall e | e in r.edges ensures IsLink(linked + {star}, e, r.edges[e]) {
      if e.0 == star.id && e.1 in star.Links() {
        assert star in linked + {star};
      } else {
        assert IsLink(linked, e, g.edges[e]);
        var p :| p in linked && p.id == e.0 && e.1 in p.Links() && p.Links()[e.1] == g.edges[e];
        assert p in linked + {star};
      }
    }
    forall e, relation | IsLink(linked + {star}, e, relation) ensures e in r.edges {
      var p :| p in linked + {star} && p.id == e.0 && e.1 in p.Links() && p.Links()[e.1] == relation;
      if p in linked { assert IsLink(linked, e, relation); }
    }
  }

  lemma {:induction false} NodesAddedShow(stars: seq<Star>)
    requires DistinctIds(Elements(stars))
    ensures Shows(NodesAdded(EMPTY, stars), Elements(stars), {})
  {
    if stars != [] {
      var front, last := stars[..|stars| - 1], stars[|stars| - 1];
      assert Elements(stars) == Elements(front) + {last};
      NodesAddedShow(front);
      NodeShown(NodesAdded(EMPTY, front), Elements(front), {}, last);
    }
  }

  lemma {:induction false} EdgesAddedShow(g: Graph, pages: set<Star>, stars: seq<Star>)
    requires Shows(g, pages, {}) && Elements(stars) <= pages && DistinctIds(pages)
    ensures Shows(AllEdgesAdded(g, stars), pages, Elements(stars))
  {
    if stars != [] {
      var front, last := stars[..|stars| - 1], stars[|stars| - 1];
      assert last in Elements(stars);
      assert Elements(stars) == Elements(front) + {last};
      EdgesAddedShow(g, pages, front);
      EdgesShown(AllEdgesAdded(g, front), pages, Elements(front), last);
    }
  }

  /** A reload builds the graph of its pages. */
  lemma LoadedRepresents(stars: seq<Star>)
    requires DistinctIds(Elements(stars))
    ensures Represents(Loaded(stars), Elements(stars))
  {
    NodesAddedShow(stars);
    EdgesAddedShow(NodesAdded(EMPTY, stars), Elements(stars), stars);
  }

  /** So does adding them one by one. */
  lemma {:induction false} AddedRepresents(stars: seq<Star>)
    requires DistinctIds(Elements(stars)) && forall s :: s in stars ==> s.id != ""
    ensures Represents(StarsAdded(EMPTY, stars), Elements(stars))
  {
    if stars != [] {
      var front, last := stars[..|stars| - 1], stars[|stars| - 1];
      assert last in stars;
      assert Elements(stars) == Elements(front) + {last};
      AddedRepresents(front);
      var g := StarsAdded(EMPTY, front);
      NodeShown(g, Elements(front), Elements(front), last);
      EdgesShown(NodeAdded(g, last), Elements(stars), Elements(front), last);
    }
  }

  /** Incremental updates in any order give the graph a reload gives, in any scan order. */
  lemma AnyOrderEqualsReload(updates: seq<Star>, scan: seq<Star>)
    requires Elements(updates) == Elements(scan) && DistinctIds(Elements(scan))
    requires forall s :: s in updates ==> s.id != ""
    ensures StarsAdded(EMPTY, updates) == Loaded(scan)
  {
    AddedRepresents(updates);
    LoadedRepresents(scan);
    RepresentsUnique(StarsAdded(EMPTY, updates), Loaded(scan), Elements(scan));
  }
}
