/**
 `internal/stack/forest.go`: containers arranged into trees under their parent containers,
 and flattened parents first. Corrupt rows may form cycles.
 */
module Forest {
  import opened Options
  import opened Lineage
  import opened GoStrings
  import opened Containers

  class Node {
    const container: Container
    var depth: nat
    var children: seq<Node>
    // The parent container's row is gone.
    var orphaned: bool

    constructor (c: Container)
      ensures container == c && depth == 0 && children == [] && !orphaned
    {
      container, depth, children, orphaned := c, 0, [], false;
    }
  }

  // Rows carry a primary key.
  ghost predicate DistinctIds(cs: seq<Container>) {
    forall i, j :: 0 <= i < j < |cs| ==> cs[i].id != cs[j].id
  }

  ghost function ParentsOf(cs: seq<Container>): Parents
    requires DistinctIds(cs)
  {
    map c | c in cs :: c.id := c.parentContainerId
  }

  ghost predicate ChildOf(ps: Parents, id: string, p: string) {
    id in ps && p in ps && p != "" && ps[id] == p
  }

  // A row with no parent row: it names none, or the one it names is gone.
  ghost predicate IsRoot(ps: Parents, id: string) {
    id in ps && (ps[id] == "" || ps[id] !in ps)
  }

  ghost predicate NoDuplicates<T>(s: seq<T>) {
    forall i, j :: 0 <= i < j < |s| ==> s[i] != s[j]
  }

  ghost predicate Sorted(ns: seq<Node>) {
    forall i, j :: 0 <= i < j < |ns| ==> !Before(ns[j].container.branch, ns[i].container.branch)
  }

  /**
   A wired graph: one node per row, and every node's children are exactly the nodes whose row
   names it as parent, each once, in branch order.
   */
  ghost predicate Wired(ps: Parents, nodes: map<string, Node>)
    reads nodes.Values`children
  {
    && nodes.Keys == ps.Keys
    && (forall id :: id in nodes ==> nodes[id].container.id == id
                                     && nodes[id].container.parentContainerId == ps[id])
    && (forall id :: id in nodes ==> NoDuplicates(nodes[id].children) && Sorted(nodes[id].children))
    && (forall id, m :: id in nodes && m in nodes[id].children ==>
          IsNode(nodes, m) && ChildOf(ps, m.container.id, id))
    && (forall id, p :: ChildOf(ps, id, p) ==> nodes[id] in nodes[p].children)
  }

  // Whatever was visited has all its children among the nodes seen.
  ghost predicate Closed(visited: set<Node>, seen: set<Node>)
    reads visited`children
  {
    forall n, m :: n in visited && m in n.children ==> m in seen
  }

  ghost predicate IsNode(nodes: map<string, Node>, n: Node) {
    n.container.id in nodes && nodes[n.container.id] == n
  }

  // `m` is one of the nodes in `start`, or below one.
  ghost predicate Under(ps: Parents, start: seq<Node>, m: Node) {
    exists k: nat, i :: 0 <= i < |start| && Up(ps, m.container.id, k) == Some(start[i].container.id)
  }

  // ---- building ----

  /** Sorts siblings by branch (`sort.Slice`). */
  method SortNodes(ns: seq<Node>) returns (sorted: seq<Node>)
    requires NoDuplicates(ns)
    ensures Sorted(sorted) && NoDuplicates(sorted) && |sorted| == |ns|
    ensures forall n :: n in sorted <==> n in ns
    ensures forall i, j :: 0 <= i < j < |sorted| ==> !Before(sorted[j].container.branch, sorted[i].container.branch)
  {
    sorted := [];
    for i := 0 to |ns|
      invariant Sorted(sorted) && NoDuplicates(sorted) && |sorted| == i
      invariant forall n :: n in sorted <==> n in ns[..i]
    {
      var at := |sorted|;
      while at > 0 && Before(ns[i].container.branch, sorted[at - 1].container.branch)
        invariant 0 <= at <= |sorted|
        invariant forall j :: at <= j < |sorted| ==>
                    Before(ns[i].container.branch, sorted[j].container.branch)
      {
        at := at - 1;
      }
      assert ns[i] !in ns[..i];
      sorted := InsertAt(sorted, at, ns[i]);
      assert ns[..i + 1] == ns[..i] + [ns[i]];
    }
    assert ns[..|ns|] == ns;
  }

  method InsertAt(s: seq<Node>, at: nat, n: Node) returns (r: seq<Node>)
    requires Sorted(s) && NoDuplicates(s) && n !in s && at <= |s|
    requires forall j :: at <= j < |s| ==> Before(n.container.branch, s[j].container.branch)
    requires at > 0 ==> !Before(n.container.branch, s[at - 1].container.branch)
    ensures Sorted(r) && NoDuplicates(r) && |r| == |s| + 1
    ensures forall m :: m in r <==> m == n || m in s
  {
    hide Before;
    r := s[..at] + [n] + s[at..];
    assert forall m :: m in s <==> m in s[..at] || m in s[at..] by {
      assert s == s[..at] + s[at..];
    }
    forall j | 0 <= j < |s|
      ensures j < at ==> !Before(n.container.branch, s[j].container.branch)
      ensures at <= j ==> !Before(s[j].container.branch, n.container.branch)
    {
      if j < at {
        BeforeIsStrictOrder(s[j].container.branch, s[at - 1].container.branch, n.container.branch);
      } else {
        BeforeIsStrictOrder(n.container.branch, s[j].container.branch, "");
      }
    }
  }

  // What the wiring says about one node's children.
  lemma ChildFacts(ps: Parents, nodes: map<string, Node>, n: Node)
    requires Wired(ps, nodes) && IsNode(nodes, n)
    ensures nodes[n.container.id] in nodes.Values
    ensures forall m :: m in n.children ==>
              IsNode(nodes, m) && ChildOf(ps, m.container.id, n.container.id)
              && m.container.parentContainerId == n.container.id
  {
  }

  lemma NothingVisited(s: set<Node>)
    ensures Closed({}, s)
  {
  }

  lemma ClosedJoin(v: set<Node>, w: set<Node>, s: set<Node>, s': set<Node>)
    requires Closed(v, s) && Closed(w, s') && s <= s'
    ensures Closed(v + w, s')
  {
  }

  lemma ClosedAdd(v: set<Node>, s: set<Node>, n: Node)
    requires Closed(v, s) && forall m :: m in n.children ==> m in s
    ensures Closed(v + {n}, s)
  {
  }

  lemma ChildDepth(ps: Parents, child: string, parent: string, k: nat)
    requires ChildOf(ps, child, parent) && ChainEnds(ps, parent, k)
    ensures ChainEnds(ps, child, k + 1)
  {
    UpShift(ps, child, k);
  }

  /** Gives every node below `ns` its depth, visiting none twice. Returns all nodes seen. */
  method AssignDepth(ns: seq<Node>, depth: nat, seen: set<Node>,
                     ghost ps: Parents, ghost nodes: map<string, Node>)
    returns (seen': set<Node>)
    requires Wired(ps, nodes)
    requires forall n :: n in ns ==> IsNode(nodes, n) && ChainEnds(ps, n.container.id, depth)
    modifies nodes.Values`depth
    ensures seen <= seen' && forall n :: n in ns ==> n in seen'
    ensures forall m :: m in seen' - seen ==> IsNode(nodes, m) && ChainEnds(ps, m.container.id, m.depth)
    ensures Closed(seen' - seen, seen')
    ensures forall m :: m in nodes.Values && m !in seen' - seen ==> m.depth == old(m.depth)
    decreases nodes.Values - seen
  {
    hide Up, ChainEnds, Closed, Wired;
    seen' := seen;
    NothingVisited(seen);
    assert seen' - seen == {};
    for i := 0 to |ns|
      invariant seen <= seen' && forall j :: 0 <= j < i ==> ns[j] in seen'
      invariant forall m :: m in seen' - seen ==> IsNode(nodes, m) && ChainEnds(ps, m.container.id, m.depth)
      invariant Closed(seen' - seen, seen')
      invariant forall m :: m in nodes.Values && m !in seen' - seen ==> m.depth == old(m.depth)
    {
      var n := ns[i];
      if n !in seen' {
        ChildFacts(ps, nodes, n);
        n.depth := depth;
        forall m | m in n.children ensures ChainEnds(ps, m.container.id, depth + 1) {
          ChildDepth(ps, m.container.id, n.container.id, depth);
        }
        ghost var seen1 := seen';
        seen' := AssignDepth(n.children, depth + 1, seen' + {n}, ps, nodes);
        ClosedJoin(seen1 - seen, seen' - (seen1 + {n}), seen1, seen');
        ClosedAdd((seen1 - seen) + (seen' - (seen1 + {n})), seen', n);
        assert (seen1 - seen) + (seen' - (seen1 + {n})) + {n} == seen' - seen;
      }
    }
  }

  /** Everything under the roots of a closed set is in the set. */
  lemma {:induction false} ClosedHoldsChain(ps: Parents, nodes: map<string, Node>, start: set<Node>, s: set<Node>,
                                            id: string, k: nat)
    requires Wired(ps, nodes) && start <= s
    requires Closed(s, s)
    requires id in ps && Up(ps, id, k).Some? && Up(ps, id, k).value in ps && nodes[Up(ps, id, k).value] in start
    ensures nodes[id] in s
    decreases k
  {
    if k > 0 {
      UpInRows(ps, id, k);
      UpShift(ps, id, k - 1);
      ClosedHoldsChain(ps, nodes, start, s, ps[id], k - 1);
      assert nodes[id] in nodes[ps[id]].children;
    }
  }

  // A chain that reaches a row went only through rows.
  lemma {:induction false} UpInRows(ps: Parents, id: string, k: nat)
    requires k > 0 && id in ps && Up(ps, id, k).Some? && Up(ps, id, k).value in ps
    ensures ChildOf(ps, id, ps[id])
  {
    if k > 1 {
      assert Up(ps, id, k - 1).value in ps;
      UpInRows(ps, id, k - 1);
    } else {
      assert Up(ps, id, 0) == Some(id);
    }
  }

  /** Siblings with different branches have one order, so the tree does not reshuffle. */
  lemma {:induction false} SiblingOrderIsUnique(ns: seq<Node>, ms: seq<Node>)
    requires Sorted(ns) && Sorted(ms) && NoDuplicates(ns) && NoDuplicates(ms) && |ns| == |ms|
    requires forall n :: n in ns <==> n in ms
    requires forall n, m :: n in ns && m in ns && n != m ==> n.container.branch != m.container.branch
    ensures ns == ms
    decreases |ns|
  {
    if ns != [] {
      assert ns[0] in ms;
      var i :| 0 <= i < |ms| && ms[i] == ns[0];
      assert ms[0] in ns;
      var j :| 0 <= j < |ns| && ns[j] == ms[0];
      BeforeIsStrictOrder(ns[0].container.branch, ms[0].container.branch, "");
      assert ns[0] == ms[0];
      forall n ensures n in ns[1..] <==> n in ms[1..] {
        assert n in ns <==> n == ns[0] || n in ns[1..];
        assert n in ms <==> n == ms[0] || n in ms[1..];
      }
      SiblingOrderIsUnique(ns[1..], ms[1..]);
    }
  }

  ghost predicate NodePerRow(cs: seq<Container>, nodes: map<string, Node>)
    requires DistinctIds(cs)
  {
    && nodes.Keys == ParentsOf(cs).Keys
    && (forall id :: id in nodes ==> nodes[id].container.id == id && nodes[id].container in cs)
    && (forall i :: 0 <= i < |cs| ==> nodes[cs[i].id].container == cs[i])
  }

  /** One unlinked node for every row. */
  method MakeNodes(cs: seq<Container>) returns (nodes: map<string, Node>)
    requires DistinctIds(cs)
    ensures fresh(nodes.Values) && NodePerRow(cs, nodes)
    ensures forall id :: id in nodes ==>
              nodes[id].children == [] && !nodes[id].orphaned && nodes[id].depth == 0
  {
    nodes := map[];
    for i := 0 to |cs|
      invariant forall id :: id in nodes ==> fresh(nodes[id])
      invariant nodes.Keys == set c | c in cs[..i] :: c.id
      invariant forall j :: 0 <= j < i ==> nodes[cs[j].id].container == cs[j]
      invariant forall id :: id in nodes ==>
                  && nodes[id].container.id == id && nodes[id].container in cs
                  && nodes[id].children == [] && !nodes[id].orphaned && nodes[id].depth == 0
    {
      var n := new Node(cs[i]);
      nodes := nodes[cs[i].id := n];
    }
    assert cs[..|cs|] == cs;
  }

  // The roots: every row without a parent row, each once.
  ghost predicate Roots(ps: Parents, nodes: map<string, Node>, roots: seq<Node>) {
    && NoDuplicates(roots)
    && (forall n :: n in roots ==> IsNode(nodes, n) && IsRoot(ps, n.container.id))
    && (forall id {:trigger IsRoot(ps, id)} :: id in nodes && IsRoot(ps, id) ==> nodes[id] in roots)
  }

  ghost function Kids(nodes: map<string, Node>): map<string, seq<Node>>
    reads nodes.Values`children
  {
    map id | id in nodes :: nodes[id].children
  }

  // The links once the rows in `linked` have been hung under their parents or among the roots.
  ghost predicate Linked(ps: Parents, nodes: map<string, Node>, kids: map<string, seq<Node>>,
                         roots: seq<Node>, linked: set<string>)
    requires nodes.Keys == ps.Keys == kids.Keys
  {
    && NoDuplicates(roots)
    && (forall n :: n in roots ==>
          IsNode(nodes, n) && IsRoot(ps, n.container.id) && n.container.id in linked)
    && (forall id {:trigger IsRoot(ps, id)} :: id in linked && IsRoot(ps, id) ==> nodes[id] in roots)
    && (forall id :: id in kids ==> NoDuplicates(kids[id]))
    && (forall id, m :: id in kids && m in kids[id] ==>
          && IsNode(nodes, m) && ChildOf(ps, m.container.id, id) && m.container.id in linked)
    && (forall id, p {:trigger ChildOf(ps, id, p)} :: id in linked && ChildOf(ps, id, p) ==>
          nodes[id] in kids[p])
  }

  ghost predicate Orphan(ps: Parents, id: string)
    requires id in ps
  {
    ps[id] != "" && ps[id] !in ps
  }

  lemma LinkRoot(n: Node, nodes: map<string, Node>, roots: seq<Node>, ps: Parents, linked: set<string>)
    requires nodes.Keys == ps.Keys && IsNode(nodes, n)
    requires Linked(ps, nodes, Kids(nodes), roots, linked) && n.container.id !in linked
    requires IsRoot(ps, n.container.id)
    ensures Linked(ps, nodes, Kids(nodes), roots + [n], linked + {n.container.id})
  {
    assert n !in roots;
  }

  method LinkChild(n: Node, parent: Node, nodes: map<string, Node>, ghost roots: seq<Node>, ghost ps: Parents,
                   ghost linked: set<string>)
    requires nodes.Keys == ps.Keys && IsNode(nodes, n) && IsNode(nodes, parent)
    requires forall id :: id in nodes ==> nodes[id].container.id == id
    requires Linked(ps, nodes, Kids(nodes), roots, linked) && n.container.id !in linked
    requires ChildOf(ps, n.container.id, parent.container.id)
    modifies parent`children
    ensures Linked(ps, nodes, Kids(nodes), roots, linked + {n.container.id})
  {
    hide Linked, ChildOf;
    ghost var kids := Kids(nodes);
    parent.children := parent.children + [n];
    assert nodes[parent.container.id] == parent;
    assert Kids(nodes) == kids[parent.container.id := kids[parent.container.id] + [n]];
    LinkedUnder(n, parent, nodes, kids, roots, ps, linked);
  }

  lemma LinkedUnder(n: Node, parent: Node, nodes: map<string, Node>, kids: map<string, seq<Node>>,
                    roots: seq<Node>, ps: Parents, linked: set<string>)
    requires nodes.Keys == ps.Keys == kids.Keys && IsNode(nodes, n) && IsNode(nodes, parent)
    requires Linked(ps, nodes, kids, roots, linked) && n.container.id !in linked
    requires ChildOf(ps, n.container.id, parent.container.id)
    ensures var p := parent.container.id; Linked(ps, nodes, kids[p := kids[p] + [n]], roots, linked + {n.container.id})
  {
    assert n !in kids[parent.container.id];
  }

  method LinkOne(n: Node, nodes: map<string, Node>, roots: seq<Node>, ghost ps: Parents, ghost linked: set<string>)
    returns (roots': seq<Node>)
    requires nodes.Keys == ps.Keys && IsNode(nodes, n) && ps[n.container.id] == n.container.parentContainerId
    requires forall id :: id in nodes ==> nodes[id].container.id == id
    requires Linked(ps, nodes, Kids(nodes), roots, linked) && n.container.id !in linked
    modifies nodes.Values`children, n`orphaned
    ensures Linked(ps, nodes, Kids(nodes), roots', linked + {n.container.id})
    ensures n.orphaned == (old(n.orphaned) || Orphan(ps, n.container.id))
  {
    hide Linked;
    var parentId := n.container.parentContainerId;
    if parentId == "" {
      LinkRoot(n, nodes, roots, ps, linked);
      roots' := roots + [n];
    } else if parentId !in nodes {
      n.orphaned := true;
      LinkRoot(n, nodes, roots, ps, linked);
      roots' := roots + [n];
    } else {
      var parent := nodes[parentId];
      assert parent in nodes.Values;
      LinkChild(n, parent, nodes, roots, ps, linked);
      roots' := roots;
    }
  }

  /** Hangs every node under its parent, or among the roots. */
  method LinkNodes(cs: seq<Container>, nodes: map<string, Node>) returns (roots: seq<Node>)
    requires DistinctIds(cs) && NodePerRow(cs, nodes)
    requires forall id :: id in nodes ==> nodes[id].children == [] && !nodes[id].orphaned
    modifies nodes.Values`children, nodes.Values`orphaned
    ensures Linked(ParentsOf(cs), nodes, Kids(nodes), roots, nodes.Keys)
    ensures forall id :: id in nodes ==> (nodes[id].orphaned <==> Orphan(ParentsOf(cs), id))
  {
    hide Linked, NodePerRow, ParentsOf, Orphan;
    ghost var ps := ParentsOf(cs);
    roots := [];
    ghost var linked: set<string> := {};
    RowFacts(cs, nodes);
    NothingLinked(ps, nodes);
    for i := 0 to |cs|
      invariant linked <= nodes.Keys
      invariant forall j :: 0 <= j < |cs| ==> (cs[j].id in linked <==> j < i)
      invariant Linked(ps, nodes, Kids(nodes), roots, linked)
      invariant forall id :: id in nodes ==> (nodes[id].orphaned <==> id in linked && Orphan(ps, id))
    {
      var n := nodes[cs[i].id];
      assert n in nodes.Values;
      roots := LinkOne(n, nodes, roots, ps, linked);
      linked := linked + {cs[i].id};
    }
    assert linked == nodes.Keys;
  }

  lemma RowFacts(cs: seq<Container>, nodes: map<string, Node>)
    requires DistinctIds(cs) && NodePerRow(cs, nodes)
    ensures nodes.Keys == ParentsOf(cs).Keys
    ensures forall id :: id in nodes ==> nodes[id].container.id == id
                                         && nodes[id].container.parentContainerId == ParentsOf(cs)[id]
                                         && exists j :: 0 <= j < |cs| && cs[j].id == id
    ensures forall j :: 0 <= j < |cs| ==> cs[j].id in nodes
  {
    forall j | 0 <= j < |cs| ensures cs[j].id in nodes {
      assert cs[j] in cs;
    }
  }

  lemma NothingLinked(ps: Parents, nodes: map<string, Node>)
    requires nodes.Keys == ps.Keys && forall id :: id in nodes ==> nodes[id].children == []
    ensures Linked(ps, nodes, Kids(nodes), [], {})
  {
  }

  method SortOne(n: Node, nodes: map<string, Node>, ghost ps: Parents, ghost roots: seq<Node>)
    requires nodes.Keys == ps.Keys && IsNode(nodes, n)
    requires forall id :: id in nodes ==> nodes[id].container.id == id
    requires Linked(ps, nodes, Kids(nodes), roots, nodes.Keys)
    modifies n`children
    ensures Linked(ps, nodes, Kids(nodes), roots, nodes.Keys) && Sorted(n.children)
  {
    hide Linked, Sorted;
    ghost var kids := Kids(nodes);
    assert nodes[n.container.id] == n;
    LinkedFacts(ps, nodes, kids, roots, n.container.id);
    var sorted := SortNodes(n.children);
    n.children := sorted;
    assert Kids(nodes) == kids[n.container.id := sorted];
    LinkedReordered(ps, nodes, kids, roots, n.container.id, sorted);
  }

  lemma LinkedFacts(ps: Parents, nodes: map<string, Node>, kids: map<string, seq<Node>>, roots: seq<Node>, id: string)
    requires nodes.Keys == ps.Keys == kids.Keys && Linked(ps, nodes, kids, roots, nodes.Keys) && id in kids
    ensures NoDuplicates(kids[id])
  {
  }

  lemma LinkedReordered(ps: Parents, nodes: map<string, Node>, kids: map<string, seq<Node>>, roots: seq<Node>,
                        id: string, ns: seq<Node>)
    requires nodes.Keys == ps.Keys == kids.Keys && Linked(ps, nodes, kids, roots, nodes.Keys) && id in kids
    requires NoDuplicates(ns) && forall n :: n in ns <==> n in kids[id]
    ensures Linked(ps, nodes, kids[id := ns], roots, nodes.Keys)
  {
  }

  /** Puts every node's children in branch order. */
  method SortAllChildren(nodes: map<string, Node>, ghost ps: Parents, ghost roots: seq<Node>)
    requires nodes.Keys == ps.Keys && forall id :: id in nodes ==> nodes[id].container.id == id
    requires Linked(ps, nodes, Kids(nodes), roots, nodes.Keys)
    modifies nodes.Values`children
    ensures Linked(ps, nodes, Kids(nodes), roots, nodes.Keys)
    ensures forall id :: id in nodes ==> Sorted(nodes[id].children)
  {
    hide Linked, Sorted;
    var todo := nodes.Keys;
    while todo != {}
      invariant todo <= nodes.Keys && Linked(ps, nodes, Kids(nodes), roots, nodes.Keys)
      invariant forall id :: id in nodes && id !in todo ==> Sorted(nodes[id].children)
    {
      var id :| id in todo;
      assert nodes[id] in nodes.Values;
      SortOne(nodes[id], nodes, ps, roots);
      todo := todo - {id};
    }
  }

  lemma LinkedAndSortedIsWired(ps: Parents, nodes: map<string, Node>, roots: seq<Node>)
    requires nodes.Keys == ps.Keys && Linked(ps, nodes, Kids(nodes), roots, nodes.Keys)
    requires forall id :: id in nodes ==> nodes[id].container.id == id
                                          && nodes[id].container.parentContainerId == ps[id]
    requires forall id :: id in nodes ==> Sorted(nodes[id].children)
    ensures Wired(ps, nodes) && Roots(ps, nodes, roots)
  {
    hide Sorted, NoDuplicates;
    var kids := Kids(nodes);
    assert forall id :: id in nodes ==> nodes[id].children == kids[id];
  }

  /** Arranges rows into trees. The node map is handed out so that callers can speak of it. */
  method BuildForest(cs: seq<Container>) returns (roots: seq<Node>, ghost graph: map<string, Node>)
    requires DistinctIds(cs)
    ensures fresh(graph.Values) && Wired(ParentsOf(cs), graph) && NodePerRow(cs, graph)
    ensures Roots(ParentsOf(cs), graph, roots) && Sorted(roots)
    // Orphans: exactly the rows that name a parent that is gone.
    ensures forall id :: id in graph ==>
              (graph[id].orphaned <==> Orphan(ParentsOf(cs), id))
    // Depth is the length of the parent chain, for every row whose chain ends.
    ensures forall id, k: nat :: id in graph && ChainEnds(ParentsOf(cs), id, k) ==> graph[id].depth == k
    // Row by row: a root names no parent or one without a row, which makes it an orphan; any other row hangs
    // under the row it names, and nothing else does.
    ensures forall c :: c in cs ==> c.id in graph && graph[c.id].container == c
    ensures forall c :: c in cs ==>
              (graph[c.id].orphaned
               <==> c.parentContainerId != "" && forall p :: p in cs ==> p.id != c.parentContainerId)
    ensures forall c :: c in cs ==>
              (graph[c.id] in roots
               <==> c.parentContainerId == "" || forall p :: p in cs ==> p.id != c.parentContainerId)
    ensures forall c, p :: c in cs && p in cs ==>
              (graph[c.id] in graph[p.id].children <==> p.id != "" && c.parentContainerId == p.id)
  {
    hide Up, ChainEnds, Closed, Wired, Roots, Orphan, NodePerRow, ParentsOf, Sorted;
    ghost var ps := ParentsOf(cs);
    var nodes;
    roots, nodes := WireNodes(cs);
    RowFacts(cs, nodes);
    RootsEndChains(ps, nodes, roots);
    var seen := AssignDepth(roots, 0, {}, ps, nodes);
    assert seen - {} == seen;
    DepthsAreRight(ps, nodes, roots, seen);
    graph := nodes;
    RowByRow(cs, graph, roots);
  }

  lemma ParentRow(cs: seq<Container>, c: Container)
    requires DistinctIds(cs) && c in cs
    ensures c.id in ParentsOf(cs) && ParentsOf(cs)[c.id] == c.parentContainerId
    ensures c.parentContainerId !in ParentsOf(cs) <==> forall p :: p in cs ==> p.id != c.parentContainerId
  {
    var i :| 0 <= i < |cs| && cs[i] == c;
  }

  lemma NodeOfRow(cs: seq<Container>, graph: map<string, Node>, c: Container)
    requires DistinctIds(cs) && NodePerRow(cs, graph) && c in cs
    ensures c.id in graph && graph[c.id].container == c && IsNode(graph, graph[c.id])
  {
    var i :| 0 <= i < |cs| && cs[i] == c;
  }

  lemma RootRow(cs: seq<Container>, graph: map<string, Node>, roots: seq<Node>, c: Container)
    requires DistinctIds(cs) && NodePerRow(cs, graph) && Roots(ParentsOf(cs), graph, roots) && c in cs
    ensures c.id in graph && c.id in ParentsOf(cs)
    ensures Orphan(ParentsOf(cs), c.id)
            <==> c.parentContainerId != "" && forall p :: p in cs ==> p.id != c.parentContainerId
    ensures graph[c.id] in roots <==> c.parentContainerId == "" || forall p :: p in cs ==> p.id != c.parentContainerId
  {
    ParentRow(cs, c);
    NodeOfRow(cs, graph, c);
    hide ParentsOf, NodePerRow;
    assert graph[c.id] in roots <==> IsRoot(ParentsOf(cs), c.id);
  }

  lemma ChildRow(cs: seq<Container>, graph: map<string, Node>, c: Container, p: Container)
    requires DistinctIds(cs) && NodePerRow(cs, graph) && Wired(ParentsOf(cs), graph) && c in cs && p in cs
    ensures c.id in graph && p.id in graph
    ensures graph[c.id] in graph[p.id].children <==> p.id != "" && c.parentContainerId == p.id
  {
    ParentRow(cs, c);
    ParentRow(cs, p);
    NodeOfRow(cs, graph, c);
    NodeOfRow(cs, graph, p);
    hide ParentsOf, NodePerRow, Sorted, NoDuplicates;
    assert ChildOf(ParentsOf(cs), c.id, p.id) <==> p.id != "" && c.parentContainerId == p.id;
  }

  lemma RowByRow(cs: seq<Container>, graph: map<string, Node>, roots: seq<Node>)
    requires DistinctIds(cs) && NodePerRow(cs, graph)
    requires Wired(ParentsOf(cs), graph) && Roots(ParentsOf(cs), graph, roots)
    ensures forall c :: c in cs ==> c.id in graph && graph[c.id].container == c && c.id in ParentsOf(cs)
    ensures forall c :: c in cs ==>
              (Orphan(ParentsOf(cs), c.id)
               <==> c.parentContainerId != "" && forall p :: p in cs ==> p.id != c.parentContainerId)
    ensures forall c :: c in cs ==>
              (graph[c.id] in roots
               <==> c.parentContainerId == "" || forall p :: p in cs ==> p.id != c.parentContainerId)
    ensures forall c, p :: c in cs && p in cs ==>
              (graph[c.id] in graph[p.id].children <==> p.id != "" && c.parentContainerId == p.id)
  {
    hide *;
    forall c | c in cs ensures c.id in graph && graph[c.id].container == c && c.id in ParentsOf(cs) {
      NodeOfRow(cs, graph, c);
      ParentRow(cs, c);
    }
    forall c | c in cs
      ensures Orphan(ParentsOf(cs), c.id)
              <==> c.parentContainerId != "" && forall p :: p in cs ==> p.id != c.parentContainerId
      ensures graph[c.id] in roots <==> c.parentContainerId == "" || forall p :: p in cs ==> p.id != c.parentContainerId
    {
      RootRow(cs, graph, roots, c);
    }
    forall c, p | c in cs && p in cs
      ensures graph[c.id] in graph[p.id].children <==> p.id != "" && c.parentContainerId == p.id
    {
      ChildRow(cs, graph, c, p);
    }
  }

  /** Makes the nodes and links them, siblings sorted; depths are still unset. */
  method WireNodes(cs: seq<Container>) returns (roots: seq<Node>, nodes: map<string, Node>)
    requires DistinctIds(cs)
    ensures fresh(nodes.Values) && Wired(ParentsOf(cs), nodes) && NodePerRow(cs, nodes)
    ensures Roots(ParentsOf(cs), nodes, roots) && Sorted(roots)
    ensures forall id :: id in nodes ==> (nodes[id].orphaned <==> Orphan(ParentsOf(cs), id))
  {
    hide Wired, Roots, Linked, Orphan, NodePerRow, ParentsOf, Sorted;
    ghost var ps := ParentsOf(cs);
    nodes := MakeNodes(cs);
    roots := LinkNodes(cs, nodes);
    RowFacts(cs, nodes);
    SortAllChildren(nodes, ps, roots);
    LinkedAndSortedIsWired(ps, nodes, roots);
    roots := SortRoots(roots, ps, nodes);
  }

  method SortRoots(unsorted: seq<Node>, ghost ps: Parents, ghost nodes: map<string, Node>) returns (roots: seq<Node>)
    requires Roots(ps, nodes, unsorted)
    ensures Roots(ps, nodes, roots) && Sorted(roots)
  {
    roots := SortNodes(unsorted);
  }

  lemma RootsEndChains(ps: Parents, nodes: map<string, Node>, roots: seq<Node>)
    requires Roots(ps, nodes, roots) && nodes.Keys == ps.Keys
    ensures forall n :: n in roots ==> IsNode(nodes, n) && ChainEnds(ps, n.container.id, 0)
  {
    forall n | n in roots ensures ChainEnds(ps, n.container.id, 0) {
      assert Up(ps, n.container.id, 0) == Some(n.container.id);
    }
  }

  lemma DepthsAreRight(ps: Parents, nodes: map<string, Node>, roots: seq<Node>, seen: set<Node>)
    requires Wired(ps, nodes) && Roots(ps, nodes, roots) && Closed(seen, seen)
    requires forall n :: n in roots ==> n in seen
    requires forall m :: m in seen ==> IsNode(nodes, m) && ChainEnds(ps, m.container.id, m.depth)
    ensures forall id, k: nat :: id in nodes && ChainEnds(ps, id, k) ==> nodes[id].depth == k
  {
    forall id, k: nat | id in nodes && ChainEnds(ps, id, k) ensures nodes[id].depth == k {
      assert IsRoot(ps, Up(ps, id, k).value);
      ClosedHoldsChain(ps, nodes, set n | n in roots :: n, seen, id, k);
      ChainLengthUnique(ps, id, k, nodes[id].depth);
    }
  }

  // ---- flattening ----

  ghost predicate ParentsEarlier(out: seq<Node>, j: nat)
    requires j < |out|
  {
    exists i :: 0 <= i < j && out[i].container.id == out[j].container.parentContainerId
  }

  lemma ParentsEarlierStable(out: seq<Node>, out': seq<Node>, j: nat)
    requires out <= out' && j < |out| && ParentsEarlier(out, j)
    ensures ParentsEarlier(out', j)
  {
    var i :| 0 <= i < j && out[i].container.id == out[j].container.parentContainerId;
    assert out'[i] == out[i] && out'[j] == out[j];
  }

  // From `from` on, `out` lists only nodes under `start`, parents before children.
  ghost predicate Lists(ps: Parents, nodes: map<string, Node>, start: seq<Node>, out: seq<Node>, from: nat) {
    forall j :: from <= j < |out| ==>
      && IsNode(nodes, out[j]) && Under(ps, start, out[j])
      && (out[j] in start || ParentsEarlier(out, j))
  }

  // What a visit of `c` appended belongs under `start` when `c` is one of `start`, or a listed node's child.
  lemma ListsMore(ps: Parents, nodes: map<string, Node>, start: seq<Node>, c: Node,
                  out: seq<Node>, out': seq<Node>, from: nat, p: nat)
    requires Lists(ps, nodes, start, out, from) && Lists(ps, nodes, [c], out', |out|) && out <= out'
    requires c in start
             || (p < |out| && out[p] in start && ChildOf(ps, c.container.id, out[p].container.id)
                 && c.container.parentContainerId == out[p].container.id)
    ensures Lists(ps, nodes, start, out', from)
  {
    hide Up;
    forall j | from <= j < |out'|
      ensures IsNode(nodes, out'[j]) && Under(ps, start, out'[j])
      ensures out'[j] in start || ParentsEarlier(out', j)
    {
      if j < |out| {
        assert out'[j] == out[j];
        if out[j] !in start {
          ParentsEarlierStable(out, out', j);
        }
      } else {
        if c in start {
          var k: nat, i :| 0 <= i < 1 && Up(ps, out'[j].container.id, k) == Some([c][i].container.id);
          var i' :| 0 <= i' < |start| && start[i'] == c;
          assert Up(ps, out'[j].container.id, k) == Some(start[i'].container.id);
        } else {
          UnderStep(ps, c, out[p], start, out'[j]);
          if out'[j] == c {
            assert out'[p] == out[p];
          }
        }
      }
    }
  }

  // What is under a child of one of `start` is under `start`.
  lemma UnderStep(ps: Parents, child: Node, parent: Node, start: seq<Node>, m: Node)
    requires ChildOf(ps, child.container.id, parent.container.id)
    requires Under(ps, [child], m) && parent in start
    ensures Under(ps, start, m)
  {
    var k: nat :| Up(ps, m.container.id, k) == Some(child.container.id);
    var i :| 0 <= i < |start| && start[i] == parent;
    assert Up(ps, m.container.id, k + 1) == Some(start[i].container.id);
  }

  lemma ListsItself(ps: Parents, nodes: map<string, Node>, n: Node, out: seq<Node>)
    requires IsNode(nodes, n)
    ensures Lists(ps, nodes, [n], out + [n], |out|)
  {
    assert Up(ps, n.container.id, 0) == Some([n][0].container.id);
  }

  /** Appends `n` and everything below it that was not seen yet, parents first. */
  method Visit(n: Node, out: seq<Node>, seen: set<Node>, ghost ps: Parents, ghost nodes: map<string, Node>)
    returns (out': seq<Node>, seen': set<Node>)
    requires Wired(ps, nodes) && IsNode(nodes, n)
    requires NoDuplicates(out) && seen == set m | m in out
    ensures NoDuplicates(out') && out <= out' && seen' == (set m | m in out') && seen <= seen'
    ensures n in seen'
    ensures Lists(ps, nodes, [n], out', |out|)
    ensures Closed(seen' - seen, seen')
    decreases nodes.Values - seen
  {
    hide Up, Under, Closed, Wired, Lists, ParentsEarlier;
    out', seen' := out, seen;
    if n in seen {
      NothingVisited(seen);
      assert seen - seen == {};
      NothingListed(ps, nodes, [n], out);
      return;
    }
    ChildFacts(ps, nodes, n);
    seen' := seen' + {n};
    out' := out' + [n];
    ListsItself(ps, nodes, n, out);
    NothingVisited(seen');
    assert seen' - seen - {n} == {};
    for i := 0 to |n.children|
      invariant NoDuplicates(out') && out + [n] <= out' && seen' == set m | m in out'
      invariant seen + {n} <= seen'
      invariant forall j :: 0 <= j < i ==> n.children[j] in seen'
      invariant Lists(ps, nodes, [n], out', |out|)
      invariant Closed(seen' - seen - {n}, seen')
    {
      var c := n.children[i];
      ghost var out1, seen1 := out', seen';
      out', seen' := Visit(c, out', seen', ps, nodes);
      assert out1[|out|] == n;
      ListsMore(ps, nodes, [n], c, out1, out', |out|, |out|);
      ClosedJoin(seen1 - seen - {n}, seen' - seen1, seen1, seen');
      assert (seen1 - seen - {n}) + (seen' - seen1) == seen' - seen - {n};
    }
    ClosedAdd(seen' - seen - {n}, seen', n);
    assert (seen' - seen - {n}) + {n} == seen' - seen;
  }

  lemma NothingListed(ps: Parents, nodes: map<string, Node>, start: seq<Node>, out: seq<Node>)
    ensures Lists(ps, nodes, start, out, |out|)
  {
  }

  /**
   Flattens the forest. The result lists exactly the nodes that are in `start` or below it,
   each once, and every listed node comes after its parent unless it is one of `start`.
   */
  method TopoOrder(start: seq<Node>, ghost ps: Parents, ghost nodes: map<string, Node>)
    returns (out: seq<Node>)
    requires Wired(ps, nodes) && forall n :: n in start ==> IsNode(nodes, n)
    ensures NoDuplicates(out)
    ensures Lists(ps, nodes, start, out, 0)
    ensures forall id :: id in nodes && Under(ps, start, nodes[id]) ==> nodes[id] in out
  {
    hide Up, Under, Closed, Lists, Wired, ParentsEarlier;
    out := [];
    var seen: set<Node> := {};
    NothingVisited({});
    NothingListed(ps, nodes, start, []);
    for i := 0 to |start|
      invariant NoDuplicates(out) && seen == set m | m in out
      invariant forall j :: 0 <= j < i ==> start[j] in seen
      invariant Lists(ps, nodes, start, out, 0)
      invariant Closed(seen, seen)
    {
      ghost var out1, seen1 := out, seen;
      out, seen := Visit(start[i], out, seen, ps, nodes);
      ListsMore(ps, nodes, start, start[i], out1, out, 0, 0);
      ClosedJoin(seen1, seen - seen1, seen1, seen);
      assert seen1 + (seen - seen1) == seen;
    }
    FlattenedAll(ps, nodes, start, out);
  }

  lemma FlattenedAll(ps: Parents, nodes: map<string, Node>, start: seq<Node>, out: seq<Node>)
    requires Wired(ps, nodes) && forall n :: n in start ==> IsNode(nodes, n) && n in out
    requires var seen := set m | m in out; Closed(seen, seen)
    ensures forall id :: id in nodes && Under(ps, start, nodes[id]) ==> nodes[id] in out
  {
    var seen := set m | m in out;
    forall id | id in nodes && Under(ps, start, nodes[id]) ensures nodes[id] in out {
      var k: nat, i :| 0 <= i < |start| && Up(ps, id, k) == Some(start[i].container.id);
      assert start[i] in start && IsNode(nodes, start[i]);
      assert ps.Keys == nodes.Keys;
      ClosedHoldsChain(ps, nodes, set n | n in start :: n, seen, id, k);
    }
  }

  lemma FirstListed(ps: Parents, nodes: map<string, Node>, n: Node, out: seq<Node>)
    requires Lists(ps, nodes, [n], out, 0) && out != []
    ensures out[0] == n
  {
    assert IsNode(nodes, out[0]);
  }

  // Dropping the first node of a listing keeps the rest parents first.
  lemma ListedTail(ps: Parents, nodes: map<string, Node>, n: Node, all: seq<Node>, below: seq<Node>)
    requires Lists(ps, nodes, [n], all, 0) && NoDuplicates(all) && all == [n] + below
    ensures forall j :: 0 <= j < |below| ==>
              below[j].container.parentContainerId == n.container.id || ParentsEarlier(below, j)
  {
    hide Under;
    forall j | 0 <= j < |below|
      ensures below[j].container.parentContainerId == n.container.id || ParentsEarlier(below, j)
    {
      assert below[j] == all[j + 1] && all[j + 1] != all[0];
      var k :| 0 <= k < j + 1 && all[k].container.id == all[j + 1].container.parentContainerId;
      if k > 0 {
        assert below[k - 1] == all[k];
      }
    }
  }

  /** Every node strictly beneath `n`, parents first. */
  method Descendants(n: Node, ghost ps: Parents, ghost nodes: map<string, Node>) returns (below: seq<Node>)
    requires Wired(ps, nodes) && IsNode(nodes, n)
    ensures NoDuplicates(below) && n !in below
    ensures forall m :: m in below ==> IsNode(nodes, m) && Under(ps, [n], m)
    ensures forall id :: id in nodes && Under(ps, [n], nodes[id]) ==> nodes[id] == n || nodes[id] in below
    ensures forall j :: 0 <= j < |below| ==>
              below[j].container.parentContainerId == n.container.id || ParentsEarlier(below, j)
  {
    hide Up, Under, Wired, ParentsEarlier, Lists;
    var all := TopoOrder([n], ps, nodes);
    UnderItself(ps, n);
    assert nodes[n.container.id] in all;
    FirstListed(ps, nodes, n, all);
    below := all[1..];
    assert all == [n] + below;
    ListedTail(ps, nodes, n, all, below);
    ListedUnder(ps, nodes, n, all);
  }

  lemma UnderItself(ps: Parents, n: Node)
    ensures Under(ps, [n], n)
  {
    assert Up(ps, n.container.id, 0) == Some([n][0].container.id);
  }

  lemma ListedUnder(ps: Parents, nodes: map<string, Node>, n: Node, all: seq<Node>)
    requires Lists(ps, nodes, [n], all, 0)
    ensures forall m :: m in all ==> IsNode(nodes, m) && Under(ps, [n], m)
  {
    hide Under;
  }

  /**
   Conservation. The forest of any rows, flattened, lists each container whose parent chain
   ends exactly once, parents first; only containers on or below a cycle are left out.
   */
  method Flatten(cs: seq<Container>) returns (order: seq<Container>)
    requires DistinctIds(cs)
    ensures Conserves(cs, order)
  {
    hide Up, Grounded, OnOrBelowCycle, Wired, Lists, Under, ParentsEarlier, Roots, NodePerRow, Conserves;
    var roots, graph := BuildForest(cs);
    RootsAreNodes(cs, graph, roots);
    var nodes := TopoOrder(roots, ParentsOf(cs), graph);
    order := [];
    for i := 0 to |nodes|
      invariant |order| == i && forall j :: 0 <= j < i ==> order[j] == nodes[j].container
    {
      order := order + [nodes[i].container];
    }
    FlattenConserves(cs, graph, roots, nodes, order);
  }

  ghost predicate Conserves(cs: seq<Container>, order: seq<Container>)
    requires DistinctIds(cs)
  {
    var ps := ParentsOf(cs);
    && NoDuplicates(order)
    && (forall c :: c in order <==> c in cs && Grounded(ps, c.id))
    && (forall c :: c in cs ==> (c !in order <==> OnOrBelowCycle(ps, c.id)))
    && (forall j :: 0 <= j < |order| && !IsRoot(ps, order[j].id) ==>
          exists i :: 0 <= i < j && order[i].id == order[j].parentContainerId)
  }

  lemma RootsAreNodes(cs: seq<Container>, graph: map<string, Node>, roots: seq<Node>)
    requires DistinctIds(cs) && Roots(ParentsOf(cs), graph, roots)
    ensures forall n :: n in roots ==> IsNode(graph, n)
  {
  }

  lemma ListedRows(cs: seq<Container>, graph: map<string, Node>, roots: seq<Node>, nodes: seq<Node>, id: string)
    requires DistinctIds(cs) && NodePerRow(cs, graph) && Roots(ParentsOf(cs), graph, roots) && id in graph
    requires Lists(ParentsOf(cs), graph, roots, nodes, 0)
    requires forall x :: x in graph && Under(ParentsOf(cs), roots, graph[x]) ==> graph[x] in nodes
    ensures graph[id] in nodes <==> Grounded(ParentsOf(cs), id)
    ensures Grounded(ParentsOf(cs), id) <==> !OnOrBelowCycle(ParentsOf(cs), id)
  {
    hide Up, ParentsEarlier;
    var ps := ParentsOf(cs);
    UnderRootsIsGrounded(ps, graph, roots, id);
    GroundedUnlessCyclic(ps, id);
    if graph[id] in nodes {
      var j :| 0 <= j < |nodes| && nodes[j] == graph[id];
    }
  }

  lemma FlattenConserves(cs: seq<Container>, graph: map<string, Node>, roots: seq<Node>, nodes: seq<Node>,
                         order: seq<Container>)
    requires DistinctIds(cs) && NodePerRow(cs, graph) && Roots(ParentsOf(cs), graph, roots)
    requires NoDuplicates(nodes) && Lists(ParentsOf(cs), graph, roots, nodes, 0)
    requires forall x :: x in graph && Under(ParentsOf(cs), roots, graph[x]) ==> graph[x] in nodes
    requires |order| == |nodes| && forall j :: 0 <= j < |nodes| ==> order[j] == nodes[j].container
    ensures Conserves(cs, order)
  {
    hide Up, Grounded, OnOrBelowCycle, Under;
    var ps := ParentsOf(cs);
    forall i, j | 0 <= i < j < |order| ensures order[i] != order[j] {
      assert nodes[i] != nodes[j] && IsNode(graph, nodes[i]) && IsNode(graph, nodes[j]);
    }
    forall c | c in cs
      ensures c in order <==> Grounded(ps, c.id)
      ensures c !in order <==> OnOrBelowCycle(ps, c.id)
    {
      ListedRows(cs, graph, roots, nodes, c.id);
      if graph[c.id] in nodes {
        var j :| 0 <= j < |nodes| && nodes[j] == graph[c.id];
        assert order[j] == c;
      }
      if c in order {
        var j :| 0 <= j < |order| && order[j] == c;
        assert IsNode(graph, nodes[j]) && nodes[j] == graph[c.id];
      }
    }
    forall c | c in order ensures c in cs {
      var j :| 0 <= j < |order| && order[j] == c;
      assert IsNode(graph, nodes[j]);
    }
    forall j | 0 <= j < |order| && !IsRoot(ps, order[j].id)
      ensures exists i :: 0 <= i < j && order[i].id == order[j].parentContainerId
    {
      assert nodes[j] !in roots && ParentsEarlier(nodes, j);
      var i :| 0 <= i < j && nodes[i].container.id == nodes[j].container.parentContainerId;
      assert order[i].id == order[j].parentContainerId;
    }
  }

  lemma UnderRootsIsGrounded(ps: Parents, nodes: map<string, Node>, roots: seq<Node>, id: string)
    requires nodes.Keys == ps.Keys && id in ps
    requires forall x :: x in nodes ==> IsNode(nodes, nodes[x]) && nodes[x].container.id == x
    requires Roots(ps, nodes, roots)
    ensures Under(ps, roots, nodes[id]) <==> Grounded(ps, id)
  {
    hide Up;
    if Under(ps, roots, nodes[id]) {
      var k: nat, i :| 0 <= i < |roots| && Up(ps, id, k) == Some(roots[i].container.id);
      assert ChainEnds(ps, id, k);
    }
    if Grounded(ps, id) {
      var k: nat :| ChainEnds(ps, id, k);
      var top := Up(ps, id, k).value;
      assert IsRoot(ps, top);
      var i :| 0 <= i < |roots| && roots[i] == nodes[top];
      assert Up(ps, nodes[id].container.id, k) == Some(roots[i].container.id);
    }
  }
}
