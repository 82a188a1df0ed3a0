/** Pages added one by one against pages read by a load: when the two graphs agree. */
module GraphAgreement {
  import opened Basics
  import opened VaultGraph

  // ---------------------------------------------------------------- what a sequence of pages leaves in a graph

  /** The attributes the last star of an id gave it. */
  function Attr(stars: seq<Star>, id: string): Option<Attributes> {
    if stars == [] then None
    else
      var last := stars[|stars| - 1];
      if last.id == id then Some(last.attributes) else Attr(stars[..|stars| - 1], id)
  }

  /** The label that the last star linking `source` to `target` gave the link. */
  function Label(stars: seq<Star>, source: string, target: string): Option<string> {
    if stars == [] then None
    else
      var last := stars[|stars| - 1];
      if last.id == source && target in last.Links() then Some(last.Links()[target])
      else Label(stars[..|stars| - 1], source, target)
  }

  function EdgeLabel(g: Graph, e: Edge): Option<string> {
    if e in g.edges then Some(g.edges[e]) else None
  }

  ghost predicate IsLinked(stars: seq<Star>, n: string) {
    exists s :: s in stars && n in s.Links()
  }

  /** The edges after adding page by page: every link any page ever had, with its last label. */
  lemma {:induction false} AddedEdges(stars: seq<Star>, e: Edge)
    requires forall s :: s in stars ==> s.id != ""
    ensures EdgeLabel(StarsAdded(EMPTY, stars), e) == Label(stars, e.0, e.1)
  {
    if stars != [] {
      var front, last := stars[..|stars| - 1], stars[|stars| - 1];
      assert last in stars && forall s :: s in front ==> s in stars;
      AddedEdges(front, e);
      EdgesAddedIs(NodeAdded(StarsAdded(EMPTY, front), last), last.id, last.edges);
    }
  }

  /** The nodes: every id that was ever added, with its last attributes, and every target. */
  lemma {:induction false} AddedNodes(stars: seq<Star>, n: string)
    requires forall s :: s in stars ==> s.id != ""
    ensures var g := StarsAdded(EMPTY, stars);
            && (n in g.nodes <==> Attr(stars, n).Some? || IsLinked(stars, n))
            && (n in g.nodes ==> g.nodes[n] == Attr(stars, n))
  {
    if stars != [] {
      var front, last := stars[..|stars| - 1], stars[|stars| - 1];
      assert stars == front + [last];
      assert last in stars && forall s :: s in front ==> s in stars;
      AddedNodes(front, n);
      EdgesAddedIs(NodeAdded(StarsAdded(EMPTY, front), last), last.id, last.edges);
    }
  }

  lemma {:induction false} NodesFirst(stars: seq<Star>, n: string)
    ensures var g := NodesAdded(EMPTY, stars);
            && g.edges == map[] && (n in g.nodes <==> Attr(stars, n).Some?)
            && (n in g.nodes ==> g.nodes[n] == Attr(stars, n))
  {
    if stars != [] { NodesFirst(stars[..|stars| - 1], n); }
  }

  lemma {:induction false} EdgesThen(g: Graph, stars: seq<Star>, n: string, e: Edge)
    requires g.edges == map[] && forall s :: s in stars ==> s.id in g.nodes
    ensures var r := AllEdgesAdded(g, stars);
            && (forall m :: m in g.nodes ==> m in r.nodes)
            && (n in r.nodes <==> n in g.nodes || IsLinked(stars, n))
            && (n in r.nodes ==> r.nodes[n] == if n in g.nodes then g.nodes[n] else None)
            && EdgeLabel(r, e) == Label(stars, e.0, e.1)
  {
    if stars != [] {
      var front, last := stars[..|stars| - 1], stars[|stars| - 1];
      assert stars == front + [last];
      assert last in stars && forall s :: s in front ==> s in stars;
      EdgesThen(g, front, n, e);
      EdgesAddedIs(AllEdgesAdded(g, front), last.id, last.edges);
    }
  }

  /** A load leaves the same edges and nodes as adding page by page, whatever ids repeat. */
  lemma LoadedGraph(stars: seq<Star>, n: string, e: Edge)
    ensures var g := Loaded(stars);
            && EdgeLabel(g, e) == Label(stars, e.0, e.1)
            && (n in g.nodes <==> Attr(stars, n).Some? || IsLinked(stars, n))
            && (n in g.nodes ==> g.nodes[n] == Attr(stars, n))
  {
    forall s | s in stars ensures s.id in NodesAdded(EMPTY, stars).nodes {
      NodesFirst(stars, s.id);
      AttrIsPage(stars, s.id);
    }
    NodesFirst(stars, n);
    EdgesThen(NodesAdded(EMPTY, stars), stars, n, e);
  }

  lemma {:induction false} LabelIsLink(stars: seq<Star>, source: string, target: string)
    ensures Label(stars, source, target).Some? <==> exists s :: s in stars && s.id == source && target in s.Links()
  {
    if stars != [] {
      var front, last := stars[..|stars| - 1], stars[|stars| - 1];
      assert stars == front + [last];
      LabelIsLink(front, source, target);
    }
  }

  lemma {:induction false} AttrIsPage(stars: seq<Star>, id: string)
    ensures Attr(stars, id).Some? <==> exists s :: s in stars && s.id == id
  {
    if stars != [] {
      var front, last := stars[..|stars| - 1], stars[|stars| - 1];
      assert stars == front + [last];
      AttrIsPage(front, id);
    }
  }

  lemma LinkedByLabel(stars: seq<Star>, n: string)
    ensures IsLinked(stars, n) <==> exists source :: Label(stars, source, n).Some?
  {
    if s :| s in stars && n in s.Links() {
      LabelIsLink(stars, s.id, n);
    }
    if source :| Label(stars, source, n).Some? {
      LabelIsLink(stars, source, n);
    }
  }

  // ---------------------------------------------------------------- when the two graphs agree

  /** Every page that was ever added is read by the load. */
  ghost predicate NoneHidden(added: seq<Star>, scan: seq<Star>) {
    forall id :: Attr(added, id).Some? ==> Attr(scan, id).Some?
  }

  /** Every link ever added to a page that is read is read too. */
  ghost predicate NothingDropped(added: seq<Star>, scan: seq<Star>) {
    forall source, t :: Label(added, source, t).Some? && Attr(scan, source).Some? ==> Label(scan, source, t).Some?
  }

  /** Every page that is read was added, last with these attributes. */
  ghost predicate NoNewPage(added: seq<Star>, scan: seq<Star>) {
    forall id :: Attr(scan, id).Some? ==> Attr(added, id) == Attr(scan, id)
  }

  /** Every link that is read was added, last with this label. */
  ghost predicate NoNewLink(added: seq<Star>, scan: seq<Star>) {
    forall source, t :: Label(scan, source, t).Some? ==> Label(added, source, t) == Label(scan, source, t)
  }

  ghost predicate NothingNew(added: seq<Star>, scan: seq<Star>) {
    NoNewPage(added, scan) && NoNewLink(added, scan)
  }

  ghost predicate HaveIds(stars: seq<Star>) {
    forall s :: s in stars ==> s.id != ""
  }

  ghost predicate SameEdges(g: Graph, r: Graph) {
    forall e :: EdgeLabel(g, e) == EdgeLabel(r, e)
  }

  lemma SameGraphs(g: Graph, r: Graph)
    requires SameEdges(g, r)
    requires forall n :: (n in g.nodes <==> n in r.nodes) && (n in g.nodes ==> g.nodes[n] == r.nodes[n])
    ensures g == r
  {
    assert g.nodes == r.nodes;
    forall e ensures e in g.edges <==> e in r.edges { assert EdgeLabel(g, e) == EdgeLabel(r, e); }
    forall e | e in g.edges ensures g.edges[e] == r.edges[e] { assert EdgeLabel(g, e) == EdgeLabel(r, e); }
    assert g.edges == r.edges;
  }

  ghost predicate SameLabels(added: seq<Star>, scan: seq<Star>) {
    forall source, t :: Label(added, source, t) == Label(scan, source, t)
  }

  ghost predicate SameAttributes(added: seq<Star>, scan: seq<Star>) {
    forall id :: Attr(added, id) == Attr(scan, id)
  }

  lemma LinkedToo(stars: seq<Star>, others: seq<Star>, n: string)
    requires NoNewLink(others, stars) && IsLinked(stars, n)
    ensures IsLinked(others, n)
  {
    LinkedByLabel(stars, n);
    var source :| Label(stars, source, n).Some?;
    assert Label(others, source, n) == Label(stars, source, n);
    LinkedByLabel(others, n);
  }

  lemma SamePagesSameGraph(added: seq<Star>, scan: seq<Star>)
    requires HaveIds(added) && SameAttributes(added, scan) && SameLabels(added, scan)
    ensures StarsAdded(EMPTY, added) == Loaded(scan)
  {
    var g, r := StarsAdded(EMPTY, added), Loaded(scan);
    forall e ensures EdgeLabel(g, e) == EdgeLabel(r, e) {
      AddedEdges(added, e);
      LoadedGraph(scan, "", e);
    }
    forall n ensures (n in g.nodes <==> n in r.nodes) && (n in g.nodes ==> g.nodes[n] == r.nodes[n]) {
      AddedNodes(added, n);
      LoadedGraph(scan, n, ("", ""));
      if IsLinked(added, n) { LinkedToo(added, scan, n); }
      if IsLinked(scan, n) { LinkedToo(scan, added, n); }
    }
    SameGraphs(g, r);
  }

  /** Nodes first and edges after give what adding page by page gives, also when ids repeat. */
  lemma OnePassEqualsTwo(stars: seq<Star>)
    requires HaveIds(stars)
    ensures StarsAdded(EMPTY, stars) == Loaded(stars)
  {
    SamePagesSameGraph(stars, stars);
  }

  lemma SameGraphSamePages(added: seq<Star>, scan: seq<Star>)
    requires HaveIds(added) && StarsAdded(EMPTY, added) == Loaded(scan)
    ensures SameAttributes(added, scan) && SameLabels(added, scan)
  {
    forall source, t ensures Label(added, source, t) == Label(scan, source, t) {
      AddedEdges(added, (source, t));
      LoadedGraph(scan, "", (source, t));
    }
    forall id ensures Attr(added, id) == Attr(scan, id) {
      AddedNodes(added, id);
      LoadedGraph(scan, id, ("", ""));
    }
  }

  /**
   Pages added one by one, and pages read by a load: the two graphs are equal exactly when no added
   page and no link of one is missing from what is read, and nothing else is read.
   */
  lemma IncrementalEqualsReload(added: seq<Star>, scan: seq<Star>)
    requires HaveIds(added)
    ensures StarsAdded(EMPTY, added) == Loaded(scan)
            <==> NoneHidden(added, scan) && NothingDropped(added, scan) && NothingNew(added, scan)
  {
    if StarsAdded(EMPTY, added) == Loaded(scan) { SameGraphSamePages(added, scan); }
    if NoneHidden(added, scan) && NothingDropped(added, scan) && NothingNew(added, scan) {
      forall id ensures Attr(added, id) == Attr(scan, id) {}
      forall source, t ensures Label(added, source, t) == Label(scan, source, t) {
        LabelNeedsPage(added, source, t);
      }
      SamePagesSameGraph(added, scan);
    }
  }

  lemma LabelNeedsPage(stars: seq<Star>, source: string, t: string)
    ensures Label(stars, source, t).Some? ==> Attr(stars, source).Some?
  {
    LabelIsLink(stars, source, t);
    AttrIsPage(stars, source);
  }

  /** Every edge of `r` is in `g` with its label. */
  ghost predicate HasEdgesOf(g: Graph, r: Graph) {
    forall e :: EdgeLabel(r, e).Some? ==> EdgeLabel(g, e) == EdgeLabel(r, e)
  }

  /** Every node of `r` is in `g`, and with its attributes when it has any. */
  ghost predicate HasNodesOf(g: Graph, r: Graph) {
    forall n :: n in r.nodes ==> n in g.nodes && (r.nodes[n].Some? ==> g.nodes[n] == r.nodes[n])
  }

  lemma EdgesContained(added: seq<Star>, scan: seq<Star>)
    requires HaveIds(added)
    ensures HasEdgesOf(StarsAdded(EMPTY, added), Loaded(scan)) <==> NoNewLink(added, scan)
  {
    var g, r := StarsAdded(EMPTY, added), Loaded(scan);
    forall source, t ensures EdgeLabel(g, (source, t)) == Label(added, source, t)
      ensures EdgeLabel(r, (source, t)) == Label(scan, source, t)
    {
      AddedEdges(added, (source, t));
      LoadedGraph(scan, "", (source, t));
    }
    if NoNewLink(added, scan) {
      forall e | EdgeLabel(r, e).Some? ensures EdgeLabel(g, e) == EdgeLabel(r, e) { assert e == (e.0, e.1); }
    }
    if HasEdgesOf(g, r) {
      forall source, t | Label(scan, source, t).Some? ensures Label(added, source, t) == Label(scan, source, t) {
        assert EdgeLabel(g, (source, t)) == EdgeLabel(r, (source, t));
      }
    }
  }

  lemma NodesContained(added: seq<Star>, scan: seq<Star>)
    requires HaveIds(added) && NoNewLink(added, scan)
    ensures HasNodesOf(StarsAdded(EMPTY, added), Loaded(scan)) <==> NoNewPage(added, scan)
  {
    var g, r := StarsAdded(EMPTY, added), Loaded(scan);
    forall n
      ensures n in r.nodes ==> Attr(scan, n).Some? || n in g.nodes
      ensures Attr(scan, n).Some? ==> n in r.nodes && r.nodes[n] == Attr(scan, n)
      ensures n in g.nodes ==> g.nodes[n] == Attr(added, n)
      ensures n in r.nodes ==> r.nodes[n] == Attr(scan, n)
      ensures Attr(added, n).Some? ==> n in g.nodes
    {
      AddedNodes(added, n);
      LoadedGraph(scan, n, ("", ""));
      if IsLinked(scan, n) { LinkedToo(scan, added, n); }
    }
  }

  /** The incremental graph holds all of a load exactly when the load reads nothing new. */
  lemma IncrementalContainsReload(added: seq<Star>, scan: seq<Star>)
    requires HaveIds(added)
    ensures var g, r := StarsAdded(EMPTY, added), Loaded(scan);
            HasEdgesOf(g, r) && HasNodesOf(g, r) <==> NothingNew(added, scan)
  {
    EdgesContained(added, scan);
    if NoNewLink(added, scan) { NodesContained(added, scan); }
  }

  // ---------------------------------------------------------------- pages with different ids

  /** A page of a sequence with different ids decides what is left of its id, whatever the order. */
  lemma {:induction false} OnlyStar(stars: seq<Star>, p: Star, t: string)
    requires DistinctIds(Elements(stars)) && p in stars
    ensures Attr(stars, p.id) == Some(p.attributes)
    ensures Label(stars, p.id, t) == if t in p.Links() then Some(p.Links()[t]) else None
  {
    AttrIsPage(stars, p.id);
    LabelIsLink(stars, p.id, t);
    LastOfId(stars, p.id);
    LastOfLink(stars, p.id, t);
  }

  lemma {:induction false} LastOfId(stars: seq<Star>, id: string)
    ensures Attr(stars, id).Some? ==> exists s :: s in stars && s.id == id && Attr(stars, id) == Some(s.attributes)
  {
    if stars != [] {
      var front, last := stars[..|stars| - 1], stars[|stars| - 1];
      assert stars == front + [last];
      LastOfId(front, id);
    }
  }

  lemma {:induction false} LastOfLink(stars: seq<Star>, id: string, t: string)
    ensures Label(stars, id, t).Some? ==>
              exists s :: s in stars && s.id == id && t in s.Links() && Label(stars, id, t) == Some(s.Links()[t])
  {
    if stars != [] {
      var front, last := stars[..|stars| - 1], stars[|stars| - 1];
      assert stars == front + [last];
      LastOfLink(front, id, t);
    }
  }

  ghost predicate SameStar(s: Star, p: Star) {
    s.id == p.id && s.attributes == p.attributes && s.Links() == p.Links()
  }

  /** What is read of the page was added last under its id. */
  ghost predicate AddedLast(added: seq<Star>, p: Star) {
    && Attr(added, p.id) == Some(p.attributes)
    && forall t :: t in p.Links() ==> Label(added, p.id, t) == Some(p.Links()[t])
  }

  /** When the pages read have different ids, nothing new is read exactly when each of them was added last so. */
  lemma NothingNewByPage(added: seq<Star>, scan: seq<Star>)
    requires DistinctIds(Elements(scan))
    ensures NothingNew(added, scan) <==> forall p :: p in scan ==> AddedLast(added, p)
  {
    if NothingNew(added, scan) {
      forall p | p in scan ensures AddedLast(added, p) {
        forall t ensures t in p.Links() ==> Label(added, p.id, t) == Some(p.Links()[t]) { OnlyStar(scan, p, t); }
        OnlyStar(scan, p, "");
      }
    }
    if forall p :: p in scan ==> AddedLast(added, p) {
      forall id | Attr(scan, id).Some? ensures Attr(added, id) == Attr(scan, id) {
        LastOfId(scan, id);
      }
      forall source, t | Label(scan, source, t).Some? ensures Label(added, source, t) == Label(scan, source, t) {
        LastOfLink(scan, source, t);
      }
    }
  }

  /** Each page of one sequence is a page of the other. */
  ghost predicate AllIn(stars: seq<Star>, others: seq<Star>) {
    forall s :: s in stars ==> exists p :: p in others && SameStar(s, p)
  }

  lemma TwinOf(added: seq<Star>, scan: seq<Star>, s: Star)
    requires DistinctIds(Elements(added)) && DistinctIds(Elements(scan)) && s in added
    requires SameAttributes(added, scan) && SameLabels(added, scan)
    ensures exists p :: p in scan && SameStar(s, p)
  {
    OnlyStar(added, s, "");
    AttrIsPage(scan, s.id);
    var p :| p in scan && p.id == s.id;
    OnlyStar(scan, p, "");
    forall t ensures (t in s.Links() <==> t in p.Links()) && (t in s.Links() ==> s.Links()[t] == p.Links()[t]) {
      OnlyStar(added, s, t);
      OnlyStar(scan, p, t);
    }
    assert s.Links() == p.Links();
  }

  lemma TwinsAgree(added: seq<Star>, scan: seq<Star>, s: Star, p: Star, t: string)
    requires DistinctIds(Elements(added)) && DistinctIds(Elements(scan))
    requires s in added && p in scan && SameStar(s, p)
    ensures Attr(added, s.id) == Attr(scan, s.id) && Label(added, s.id, t) == Label(scan, s.id, t)
  {
    OnlyStar(added, s, t);
    OnlyStar(scan, p, t);
  }

  lemma StarOfId(stars: seq<Star>, id: string) returns (s: Star)
    requires Attr(stars, id).Some?
    ensures s in stars && s.id == id
  {
    AttrIsPage(stars, id);
    s :| s in stars && s.id == id;
  }

  lemma TwinIn(stars: seq<Star>, others: seq<Star>, s: Star) returns (p: Star)
    requires AllIn(stars, others) && s in stars
    ensures p in others && SameStar(s, p)
  {
    p :| p in others && SameStar(s, p);
  }

  lemma AgreeAt(added: seq<Star>, scan: seq<Star>, id: string, t: string)
    requires DistinctIds(Elements(added)) && DistinctIds(Elements(scan))
    requires AllIn(added, scan) && AllIn(scan, added)
    ensures Attr(added, id) == Attr(scan, id) && Label(added, id, t) == Label(scan, id, t)
  {
    if Attr(added, id).Some? {
      var s := StarOfId(added, id);
      var p := TwinIn(added, scan, s);
      TwinsAgree(added, scan, s, p, t);
    } else if Attr(scan, id).Some? {
      var p := StarOfId(scan, id);
      var s := TwinIn(scan, added, p);
      TwinsAgree(added, scan, s, p, t);
    } else {
      LabelNeedsPage(added, id, t);
      LabelNeedsPage(scan, id, t);
    }
  }

  /** With different ids on both sides the graphs are equal exactly when the pages are. */
  lemma DistinctPagesAgree(added: seq<Star>, scan: seq<Star>)
    requires HaveIds(added) && DistinctIds(Elements(added)) && DistinctIds(Elements(scan))
    ensures StarsAdded(EMPTY, added) == Loaded(scan) <==> AllIn(added, scan) && AllIn(scan, added)
  {
    if StarsAdded(EMPTY, added) == Loaded(scan) {
      SameGraphSamePages(added, scan);
      forall s | s in added ensures exists p :: p in scan && SameStar(s, p) { TwinOf(added, scan, s); }
      forall s | s in scan ensures exists p :: p in added && SameStar(s, p) { TwinOf(scan, added, s); }
    }
    if AllIn(added, scan) && AllIn(scan, added) {
      forall id ensures Attr(added, id) == Attr(scan, id) { AgreeAt(added, scan, id, ""); }
      forall id, t ensures Label(added, id, t) == Label(scan, id, t) { AgreeAt(added, scan, id, t); }
      SamePagesSameGraph(added, scan);
    }
  }
}
