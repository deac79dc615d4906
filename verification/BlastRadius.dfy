/** Blast radius of every file of the import graph (get_blast_radius in
    patchi/web/api_legacy.py, over ImportGraph of patchi/core/brain/import_graph.py). */
module BlastRadius {
  import opened Common
  import opened Sorting

  type Node = string
  type Reverse = map<Node, set<Node>>   // imported file -> its importers

  /** d.get(n, set()), also the default of the graph's defaultdicts. */
  function At(d: map<Node, set<Node>>, n: Node): set<Node> { if n in d then d[n] else {} }

  function Importers(rev: Reverse, n: Node): set<Node> { At(rev, n) }

  /** Import chains, followed against the imports. */
  ghost predicate Chain(rev: Reverse, p: seq<Node>) {
    forall i :: 0 <= i < |p| - 1 ==> p[i + 1] in Importers(rev, p[i])
  }

  /** x imports a directly or through other files. */
  ghost predicate Imports(rev: Reverse, x: Node, a: Node) {
    exists p :: ImportsVia(rev, x, a, p)
  }

  ghost predicate ImportsVia(rev: Reverse, x: Node, a: Node, p: seq<Node>) {
    |p| >= 2 && p[0] == a && p[|p| - 1] == x && Chain(rev, p)
  }

  function AllImporters(rev: Reverse): set<Node> {
    set n, x | n in rev && x in rev[n] :: x
  }

  /** All files other than `start` that import it directly or indirectly. */
  ghost function Affected(rev: Reverse, start: Node): (r: set<Node>)
    ensures forall x :: x in r <==> x != start && Imports(rev, x, start)
  {
    var r := set x | x in AllImporters(rev) && x != start && Imports(rev, x, start);
    forall x | x != start && Imports(rev, x, start) ensures x in r {
      var p :| ImportsVia(rev, x, start, p);
      assert p[|p| - 2 + 1] in Importers(rev, p[|p| - 2]);
    }
    r
  }

  lemma DirectImports(rev: Reverse, x: Node, a: Node)
    requires x in Importers(rev, a)
    ensures Imports(rev, x, a)
  {
    assert ImportsVia(rev, x, a, [a, x]);
  }

  lemma ImportsTransitive(rev: Reverse, x: Node, y: Node, a: Node)
    requires Imports(rev, x, y) && Imports(rev, y, a)
    ensures Imports(rev, x, a)
  {
    var p :| ImportsVia(rev, y, a, p);
    var q :| ImportsVia(rev, x, y, q);
    var r := p + q[1..];
    forall i | 0 <= i < |r| - 1 ensures r[i + 1] in Importers(rev, r[i]) {
      if i < |p| - 1 {
        assert p[i + 1] in Importers(rev, p[i]);
      } else {
        var k := i - (|p| - 1);
        assert r[i] == q[k] && r[i + 1] == q[k + 1];
        assert q[k + 1] in Importers(rev, q[k]);
      }
    }
    assert ImportsVia(rev, x, a, r);
  }

  /** A set holding the direct importers of `a` and closed under importers of
      its members, except that `a` itself may be missing and unexpanded, holds
      every direct and indirect importer of `a` other than `a`. */
  lemma {:induction false} ClosedIsComplete(rev: Reverse, all: set<Node>, a: Node, p: seq<Node>, k: nat)
    requires Importers(rev, a) <= all + {a}
    requires forall n :: n in all ==> Importers(rev, n) <= all + {a}
    requires k < |p| && p[0] == a && Chain(rev, p)
    ensures p[k] in all + {a}
  {
    if k > 0 {
      ClosedIsComplete(rev, all, a, p, k - 1);
      assert p[k - 1 + 1] in Importers(rev, p[k - 1]);
    }
  }

  /** The worklist of get_blast_radius. Sets are visited in any order; the
      deque may hold duplicates and the start file. */
  method AffectedFiles(rev: Reverse, start: Node) returns (all: set<Node>)
    ensures all == Affected(rev, start)
  {
    all := {};
    var queue := AppendSome([], Importers(rev, start), {});
    forall x | x in queue ensures Imports(rev, x, start) { DirectImports(rev, x, start); }
    while queue != []
      invariant forall x :: x in all ==> x != start && Imports(rev, x, start)
      invariant forall x :: x in queue ==> Imports(rev, x, start)
      invariant all <= AllImporters(rev)
      invariant forall x :: x in Importers(rev, start) ==> x in all || x == start || x in queue
      invariant forall n, x :: n in all && x in Importers(rev, n) ==> x in all || x == start || x in queue
      decreases AllImporters(rev) - all, |queue|
    {
      var n := queue[0];
      ghost var before := queue;
      queue := queue[1..];
      assert forall x :: x in before <==> x == n || x in queue by {
        assert before == [n] + queue;
      }
      if n == start || n in all {
        continue;
      }
      AffectedIsImporter(rev, n, start);
      all := all + {n};
      ghost var rest := queue;
      queue := AppendSome(queue, Importers(rev, n), all);
      forall x | x in queue ensures Imports(rev, x, start) {
        if x !in rest {
          DirectImports(rev, x, n);
          ImportsTransitive(rev, x, n, start);
        }
      }
    }
    forall x | x != start && Imports(rev, x, start) ensures x in all {
      var p :| ImportsVia(rev, x, start, p);
      ClosedIsComplete(rev, all, start, p, |p| - 1);
    }
  }

  lemma AffectedIsImporter(rev: Reverse, x: Node, a: Node)
    requires Imports(rev, x, a)
    ensures x in AllImporters(rev)
  {
    var p :| ImportsVia(rev, x, a, p);
    assert p[|p| - 2 + 1] in Importers(rev, p[|p| - 2]);
  }

  /** for parent in parents: if parent not in done: queue.append(parent) */
  method AppendSome(queue: seq<Node>, parents: set<Node>, done: set<Node>) returns (r: seq<Node>)
    ensures forall x :: x in r <==> x in queue || (x in parents && x !in done)
  {
    r := queue;
    var todo := parents;
    while todo != {}
      invariant todo <= parents
      invariant forall x :: x in r <==> x in queue || (x in parents && x !in todo && x !in done)
    {
      var parent :| parent in todo;
      todo := todo - {parent};
      if parent !in done {
        r := r + [parent];
      }
    }
  }

  // ---- Graph theorems ----

  datatype RiskLevel = LOW | MEDIUM | HIGH | CRITICAL {
    function Rank(): nat { match this case LOW => 0 case MEDIUM => 1 case HIGH => 2 case CRITICAL => 3 }
  }

  function Risk(total: nat): RiskLevel {
    if total > 10 then CRITICAL else if total > 3 then HIGH else if total > 0 then MEDIUM else LOW
  }

  ghost predicate SubGraph(rev: Reverse, more: Reverse) {
    forall n :: Importers(rev, n) <= Importers(more, n)
  }

  /** Adding imports never shrinks an affected set or lowers its risk. */
  lemma MoreImportsMoreRisk(rev: Reverse, more: Reverse, n: Node)
    requires SubGraph(rev, more)
    ensures Affected(rev, n) <= Affected(more, n)
    ensures Risk(|Affected(rev, n)|).Rank() <= Risk(|Affected(more, n)|).Rank()
  {
    forall x | x in Affected(rev, n) ensures x in Affected(more, n) {
      var p :| ImportsVia(rev, x, n, p);
      forall i | 0 <= i < |p| - 1 ensures p[i + 1] in Importers(more, p[i]) {
        assert p[i + 1] in Importers(rev, p[i]);
      }
      assert ImportsVia(more, x, n, p);
    }
    SubsetSize(Affected(rev, n), Affected(more, n));
  }

  /** If m is affected by n, its own total is no larger than that of n; it is
      equal exactly when n is affected by m too, that is inside an import cycle. */
  lemma AffectedTotals(rev: Reverse, m: Node, n: Node)
    requires m in Affected(rev, n)
    ensures |Affected(rev, m)| <= |Affected(rev, n)|
    ensures |Affected(rev, m)| == |Affected(rev, n)| <==> n in Affected(rev, m)
  {
    var below, above := Affected(rev, m), Affected(rev, n);
    forall x | x in below && x != n ensures x in above { ImportsTransitive(rev, x, m, n); }
    var swapped := above - {m} + {n};
    assert |swapped| == |above|;
    assert below <= swapped;
    SubsetSize(below, swapped);
    if n in below {
      forall x | x in above && x != m ensures x in below { ImportsTransitive(rev, x, n, m); }
      assert below == swapped;
    }
  }

  /** Files of one import cycle have equal totals. */
  lemma CycleTotalsEqual(rev: Reverse, m: Node, n: Node)
    requires m != n && Imports(rev, m, n) && Imports(rev, n, m)
    ensures |Affected(rev, m)| == |Affected(rev, n)|
    ensures Affected(rev, m) - {n} == Affected(rev, n) - {m}
  {
    AffectedTotals(rev, m, n);
    forall x | x in Affected(rev, m) && x != n ensures x in Affected(rev, n) { ImportsTransitive(rev, x, m, n); }
    forall x | x in Affected(rev, n) && x != m ensures x in Affected(rev, m) { ImportsTransitive(rev, x, n, m); }
  }

  // ---- The graph and the ranking ----

  datatype Radius = Radius(file: Node, direct: nat, total: nat, risk: RiskLevel)

  /** What the endpoint reports about one file. */
  ghost function RadiusOf(rev: Reverse, n: Node): Radius {
    var total := |Affected(rev, n)|;
    Radius(n, |Importers(rev, n)|, total, Risk(total))
  }

  predicate Larger(a: Radius, b: Radius) { a.total > b.total }

  lemma LargerIsOrder()
    ensures StrictWeakOrder(Larger)
  {
  }

  /** `order` lists the files in the order the endpoint visited them. */
  ghost predicate Lists(order: seq<Node>, nodes: set<Node>) {
    && NoRepeats(order)
    && (forall n :: n in order <==> n in nodes)
  }

  ghost predicate Describes(radii: seq<Radius>, rev: Reverse, order: seq<Node>) {
    && |radii| == |order|
    && forall i :: 0 <= i < |order| ==> radii[i] == RadiusOf(rev, order[i])
  }

  /** The ranking is what it should be: correct entries for distinct files,
      by descending total, ties in visiting order, and no file left out beats
      one that is listed. */
  ghost predicate Ranks(ranked: seq<Radius>, rev: Reverse, order: seq<Node>) {
    && |ranked| == (if |order| < 50 then |order| else 50)
    && Correct(ranked, rev, order)
    && Descending(ranked)
    && TiesKept(ranked, order)
    && NoneBetter(ranked, rev, order)
  }

  ghost predicate Correct(ranked: seq<Radius>, rev: Reverse, order: seq<Node>) {
    && (forall i :: 0 <= i < |ranked| ==> ranked[i].file in order && ranked[i] == RadiusOf(rev, ranked[i].file))
    && (forall i, j :: 0 <= i < j < |ranked| ==> ranked[i].file != ranked[j].file)
  }

  ghost predicate Descending(ranked: seq<Radius>) {
    forall i, j :: 0 <= i < j < |ranked| ==> ranked[i].total >= ranked[j].total
  }

  ghost predicate TiesKept(ranked: seq<Radius>, order: seq<Node>) {
    forall i, j, x, y :: 0 <= i < j < |ranked| && TieAt(ranked, order, i, j, x, y) ==> x < y
  }

  ghost predicate NoneBetter(ranked: seq<Radius>, rev: Reverse, order: seq<Node>) {
    forall n, i :: n in order && !Listed(ranked, n) && 0 <= i < |ranked| ==> |Affected(rev, n)| <= ranked[i].total
  }

  ghost predicate Listed(ranked: seq<Radius>, n: Node) {
    exists j :: 0 <= j < |ranked| && ranked[j].file == n
  }

  /** Entries i and j tie, and stand for the files visited at x and at y. */
  ghost predicate TieAt(ranked: seq<Radius>, order: seq<Node>, i: nat, j: nat, x: nat, y: nat)
    requires i < |ranked| && j < |ranked|
  {
    && x < |order| && y < |order|
    && ranked[i].total == ranked[j].total
    && order[x] == ranked[i].file && order[y] == ranked[j].file
  }

  lemma SortedEntries(radii: seq<Radius>, rev: Reverse, order: seq<Node>)
    requires NoRepeats(order) && Describes(radii, rev, order)
    ensures NoRepeats(radii) && Correct(StableSort(radii, Larger), rev, order)
  {
    var s := StableSort(radii, Larger);
    SortKeepsMembers(radii, Larger);
    forall i, j | 0 <= i < j < |radii| ensures radii[i] != radii[j] {
      assert radii[i].file == order[i] && radii[j].file == order[j];
    }
    SortNoRepeats(radii, Larger);
    forall i | 0 <= i < |s| ensures s[i].file in order && s[i] == RadiusOf(rev, s[i].file) {
      assert s[i] in radii;
    }
    forall i, j | 0 <= i < j < |s| ensures s[i].file != s[j].file {
      assert s[i] != s[j];
    }
  }

  lemma PositionInSorted(radii: seq<Radius>, x: nat) returns (k: nat)
    requires x < |radii|
    ensures k < |radii| && StableSort(radii, Larger)[k] == radii[x]
  {
    SortKeepsMembers(radii, Larger);
    assert radii[x] in StableSort(radii, Larger);
    k :| 0 <= k < |radii| && StableSort(radii, Larger)[k] == radii[x];
  }

  lemma DroppedIsSmaller(radii: seq<Radius>, rev: Reverse, order: seq<Node>, n: Node, i: nat)
    requires NoRepeats(order) && Describes(radii, rev, order)
    requires i < Min(50, |radii|) && n in order && !Listed(StableSort(radii, Larger)[..Min(50, |radii|)], n)
    ensures |Affected(rev, n)| <= StableSort(radii, Larger)[i].total
  {
    var s := StableSort(radii, Larger);
    var ranked := s[..Min(50, |radii|)];
    var x :| 0 <= x < |order| && order[x] == n;
    var k := PositionInSorted(radii, x);
    forall j | 0 <= j < |ranked| ensures s[j].file != n { assert ranked[j] == s[j]; }
    LargerIsOrder();
    SortAscending(radii, Larger);
    assert !Larger(s[k], s[i]);
  }

  lemma TiesInOrder(radii: seq<Radius>, rev: Reverse, order: seq<Node>, i: nat, j: nat, x: nat, y: nat)
    requires NoRepeats(order) && Describes(radii, rev, order)
    requires i < j < |order| && TieAt(StableSort(radii, Larger), order, i, j, x, y)
    ensures x < y
  {
    LargerIsOrder();
    SortedEntries(radii, rev, order);
    SortedTiesKeepOrder(radii, Larger, i, j, x, y);
  }

  lemma TiesKeptInPrefix(radii: seq<Radius>, rev: Reverse, order: seq<Node>, n: nat)
    requires NoRepeats(order) && Describes(radii, rev, order) && n <= |radii|
    ensures TiesKept(StableSort(radii, Larger)[..n], order)
  {
    var s := StableSort(radii, Larger);
    var ranked := s[..n];
    forall i, j, x, y | 0 <= i < j < |ranked| && TieAt(ranked, order, i, j, x, y) ensures x < y {
      assert ranked[i] == s[i] && ranked[j] == s[j];
      TiesInOrder(radii, rev, order, i, j, x, y);
    }
  }

  lemma DescendingPrefix(radii: seq<Radius>, n: nat)
    requires n <= |radii|
    ensures Descending(StableSort(radii, Larger)[..n])
  {
    var s := StableSort(radii, Larger);
    LargerIsOrder();
    SortAscending(radii, Larger);
    forall i, j | 0 <= i < j < n ensures s[i].total >= s[j].total { assert !Larger(s[j], s[i]); }
  }

  lemma CorrectPrefix(s: seq<Radius>, rev: Reverse, order: seq<Node>, n: nat)
    requires Correct(s, rev, order) && n <= |s|
    ensures Correct(s[..n], rev, order)
  {
  }

  lemma TopFiftyRanks(radii: seq<Radius>, rev: Reverse, order: seq<Node>)
    requires NoRepeats(order) && Describes(radii, rev, order)
    ensures Ranks(StableSort(radii, Larger)[..Min(50, |radii|)], rev, order)
  {
    var n := Min(50, |radii|);
    var ranked := StableSort(radii, Larger)[..n];
    SortedEntries(radii, rev, order);
    CorrectPrefix(StableSort(radii, Larger), rev, order, n);
    DescendingPrefix(radii, n);
    TiesKeptInPrefix(radii, rev, order, n);
    forall f, i | f in order && !Listed(ranked, f) && 0 <= i < |ranked|
      ensures |Affected(rev, f)| <= ranked[i].total
    {
      DroppedIsSmaller(radii, rev, order, f, i);
    }
  }

  /** The edge lists say that u imports v. */
  ghost predicate Mentions(data: seq<(Node, seq<Node>)>, u: Node, v: Node) {
    exists k :: 0 <= k < |data| && data[k].0 == u && v in data[k].1
  }

  lemma MentionsMore(data: seq<(Node, seq<Node>)>, last: (Node, seq<Node>), u: Node, v: Node)
    ensures Mentions(data + [last], u, v) <==> Mentions(data, u, v) || (u == last.0 && v in last.1)
  {
    var all := data + [last];
    if Mentions(data, u, v) {
      var k :| 0 <= k < |data| && data[k].0 == u && v in data[k].1;
      assert all[k] == data[k];
    }
    assert all[|data|] == last;
  }

  class ImportGraph {
    var nodes: set<Node>
    var edges: map<Node, set<Node>>
    var reverse: Reverse

    ghost predicate Edge(importer: Node, imported: Node)
      reads this
    {
      imported in At(edges, importer)
    }

    /** All three fields describe one and the same edge set. */
    ghost predicate Valid()
      reads this
    {
      && (forall u, v :: Edge(u, v) <==> u in Importers(reverse, v))
      && (forall n :: n in nodes <==> exists m :: Edge(n, m) || Edge(m, n))
    }

    constructor ()
      ensures Valid() && forall u, v :: !Edge(u, v)
    {
      nodes, edges, reverse := {}, map[], map[];
    }

    method AddEdge(importer: Node, imported: Node)
      requires Valid()
      modifies this
      ensures Valid()
      ensures forall u, v :: Edge(u, v) <==> old(Edge(u, v)) || (u == importer && v == imported)
    {
      nodes := nodes + {importer, imported};
      edges := edges[importer := At(edges, importer) + {imported}];
      reverse := reverse[imported := At(reverse, imported) + {importer}];
      assert forall u, v :: Edge(u, v) <==> old(Edge(u, v)) || (u == importer && v == imported);
      forall n ensures n in nodes <==> exists m :: Edge(n, m) || Edge(m, n) {
        assert Edge(importer, imported);
        assert n in old(nodes) <==> exists m :: old(Edge(n, m)) || old(Edge(m, n));
      }
    }

    /** Populating from the brain's edge lists: the edges are the listed
        imports, whatever order and repetitions the lists have. */
    method Populate(data: seq<(Node, seq<Node>)>)
      requires Valid() && forall u, v :: !Edge(u, v)
      modifies this
      ensures Valid()
      ensures forall u, v :: Edge(u, v) <==> Mentions(data, u, v)
    {
      var i := 0;
      while i < |data|
        invariant 0 <= i <= |data| && Valid()
        invariant forall u, v :: Edge(u, v) <==> Mentions(data[..i], u, v)
      {
        var src, targets := data[i].0, data[i].1;
        var j := 0;
        while j < |targets|
          invariant 0 <= j <= |targets| && Valid()
          invariant forall u, v :: Edge(u, v) <==> Mentions(data[..i], u, v) || (u == src && v in targets[..j])
        {
          AddEdge(src, targets[j]);
          assert targets[..j + 1] == targets[..j] + [targets[j]];
          j := j + 1;
        }
        assert targets[..j] == targets;
        assert data[..i + 1] == data[..i] + [data[i]];
        forall u, v ensures Mentions(data[..i + 1], u, v) <==> Mentions(data[..i], u, v) || (u == src && v in targets) {
          MentionsMore(data[..i], data[i], u, v);
        }
        i := i + 1;
      }
      assert data[..i] == data;
    }

    /** None stands for the "no import graph data" answer. */
    method BlastRadii() returns (ranked: Option<seq<Radius>>, ghost order: seq<Node>)
      requires Valid()
      ensures ranked.None? <==> nodes == {}
      ensures Lists(order, nodes)
      ensures ranked.Some? ==> Ranks(ranked.value, reverse, order)
      ensures ranked.Some? ==> forall i :: 0 <= i < |ranked.value| ==>
                var r := ranked.value[i];
                && r.file in nodes
                && r.direct == |set u | u in nodes && Edge(u, r.file)|
                && r.total == |set x | x in nodes && x != r.file && Imports(reverse, x, r.file)|
                && (r.risk == CRITICAL <==> r.total > 10)
                && (r.risk == HIGH <==> 3 < r.total <= 10)
                && (r.risk == MEDIUM <==> 0 < r.total <= 3)
                && (r.risk == LOW <==> r.total == 0)
    {
      order := [];
      if nodes == {} {
        return None, order;
      }
      var radii: seq<Radius> := [];
      var todo := nodes;
      while todo != {}
        invariant todo <= nodes
        invariant Lists(order, nodes - todo)
        invariant Describes(radii, reverse, order)
      {
        var node :| node in todo;
        todo := todo - {node};
        var direct := Importers(reverse, node);
        var affected := AffectedFiles(reverse, node);
        var risk := Risk(|affected|);
        radii := radii + [Radius(node, |direct|, |affected|, risk)];
        order := order + [node];
      }
      TopFiftyRanks(radii, reverse, order);
      var sorted := StableSort(radii, Larger);
      ranked := Some(sorted[..Min(50, |sorted|)]);
      EntriesAre(ranked.value, order);
    }

    /** Correct entries, said of the graph. */
    lemma EntriesAre(ranked: seq<Radius>, order: seq<Node>)
      requires Valid() && Correct(ranked, reverse, order) && Lists(order, nodes)
      ensures forall i :: 0 <= i < |ranked| ==>
                var r := ranked[i];
                && r.file in nodes
                && r.direct == |set u | u in nodes && Edge(u, r.file)|
                && r.total == |set x | x in nodes && x != r.file && Imports(reverse, x, r.file)|
                && (r.risk == CRITICAL <==> r.total > 10)
                && (r.risk == HIGH <==> 3 < r.total <= 10)
                && (r.risk == MEDIUM <==> 0 < r.total <= 3)
                && (r.risk == LOW <==> r.total == 0)
    {
      forall i | 0 <= i < |ranked|
        ensures ranked[i].direct == |set u | u in nodes && Edge(u, ranked[i].file)|
        ensures ranked[i].total == |set x | x in nodes && x != ranked[i].file && Imports(reverse, x, ranked[i].file)|
      {
        CountOf(ranked[i].file);
      }
    }

    lemma CountOf(f: Node)
      requires Valid()
      ensures Importers(reverse, f) == set u | u in nodes && Edge(u, f)
      ensures Affected(reverse, f) == set x | x in nodes && x != f && Imports(reverse, x, f)
    {
      forall x | Imports(reverse, x, f) ensures x in nodes {
        AffectedIsImporter(reverse, x, f);
        var n :| n in reverse && x in reverse[n];
        assert Edge(x, n);
      }
      forall u | Edge(u, f) ensures u in nodes {}
    }
  }
}
