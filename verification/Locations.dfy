/**
 The location tree: a forest built from a parent relation that updates may make cyclic.
 */
module Locations {
  import opened Outcomes

  datatype Location = Location(id: nat, code: string, parent: Option<nat>)

  /** A tree node; the row it was made from stands for its copied columns. */
  datatype Node = Node(row: Location, children: seq<Node>)

  ghost predicate UniqueIds(rows: seq<Location>) {
    forall i, j :: 0 <= i < j < |rows| ==> rows[i].id != rows[j].id
  }

  /** The rows with this parent, in the order of `rows` (which is code order). */
  function ChildrenOf(rows: seq<Location>, parent: Option<nat>): (r: seq<Location>)
    ensures forall x :: x in r <==> x in rows && x.parent == parent
    ensures |r| <= |rows|
  {
    if rows == [] then []
    else
      var n := |rows| - 1;
      assert forall x :: x in rows <==> x in rows[..n] || x == rows[n];
      ChildrenOf(rows[..n], parent) + (if rows[n].parent == parent then [rows[n]] else [])
  }

  // ---------------------------------------------------------------------------
  // Parent chains
  // ---------------------------------------------------------------------------

  /** `chain` leads from its first row through parents up to a root. */
  ghost predicate Chain(rows: seq<Location>, chain: seq<Location>) {
    && chain != []
    && (forall i :: 0 <= i < |chain| ==> chain[i] in rows)
    && (forall i :: 0 <= i < |chain| - 1 ==> chain[i].parent == Some(chain[i + 1].id))
    && chain[|chain| - 1].parent == None
  }

  /** The empty chain stands for the invisible root above all roots. */
  ghost predicate ChainOrTop(rows: seq<Location>, chain: seq<Location>) {
    chain == [] || Chain(rows, chain)
  }

  function TopOf(chain: seq<Location>): Option<nat> {
    if chain == [] then None else Some(chain[0].id)
  }

  ghost predicate ReachesRoot(rows: seq<Location>, r: Location) {
    exists chain :: Chain(rows, chain) && chain[0] == r
  }

  lemma SameIdSameRow(rows: seq<Location>, a: Location, b: Location)
    requires UniqueIds(rows) && a in rows && b in rows && a.id == b.id
    ensures a == b
  {
  }

  lemma RootEndsChain(rows: seq<Location>, chain: seq<Location>)
    requires Chain(rows, chain)
    ensures chain[0].parent == None <==> |chain| == 1
    ensures |chain| > 1 ==> chain[0].parent == Some(chain[1].id) && Chain(rows, chain[1..])
  {
    if |chain| > 1 {
      assert chain[0].parent == Some(chain[1].id);
    }
  }

  /** A row has at most one chain to a root. */
  lemma {:induction false} ChainIsUnique(rows: seq<Location>, a: seq<Location>, b: seq<Location>)
    requires UniqueIds(rows) && Chain(rows, a) && Chain(rows, b) && a[0] == b[0]
    ensures a == b
    decreases |a|
  {
    RootEndsChain(rows, a);
    RootEndsChain(rows, b);
    if a[0].parent != None {
      SameIdSameRow(rows, a[1], b[1]);
      ChainIsUnique(rows, a[1..], b[1..]);
      assert a == [a[0]] + a[1..] && b == [b[0]] + b[1..];
    }
  }

  /** A chain never meets a row twice, so a cycle is never part of one. */
  lemma ChainHasNoRepetition(rows: seq<Location>, chain: seq<Location>, i: nat, j: nat)
    requires UniqueIds(rows) && Chain(rows, chain) && i < j < |chain|
    ensures chain[i] != chain[j]
  {
    if chain[i] == chain[j] {
      ChainIsUnique(rows, chain[i..], chain[j..]);
    }
  }

  lemma ExtendChain(rows: seq<Location>, chain: seq<Location>, c: Location)
    requires ChainOrTop(rows, chain) && c in rows && c.parent == TopOf(chain)
    ensures Chain(rows, [c] + chain)
  {
  }

  ghost function Unvisited(rows: seq<Location>, chain: seq<Location>): set<Location> {
    (set r | r in rows) - (set r | r in chain)
  }

  lemma ChildIsUnvisited(rows: seq<Location>, chain: seq<Location>, c: Location)
    requires UniqueIds(rows) && ChainOrTop(rows, chain) && c in rows && c.parent == TopOf(chain)
    ensures Chain(rows, [c] + chain)
    ensures |Unvisited(rows, [c] + chain)| < |Unvisited(rows, chain)|
  {
    ExtendChain(rows, chain, c);
    if c in chain {
      var j :| 0 <= j < |chain| && chain[j] == c;
      ChainHasNoRepetition(rows, [c] + chain, 0, j + 1);
    }
    OneFewerUnvisited(rows, chain, c);
  }

  lemma OneFewerUnvisited(rows: seq<Location>, chain: seq<Location>, c: Location)
    requires c in rows && c !in chain
    ensures |Unvisited(rows, [c] + chain)| < |Unvisited(rows, chain)|
  {
    assert forall r :: r in [c] + chain <==> r == c || r in chain;
    assert Unvisited(rows, chain) == Unvisited(rows, [c] + chain) + {c};
  }

  // ---------------------------------------------------------------------------
  // build
  // ---------------------------------------------------------------------------

  /**
   The recursive `build`: it descends only below rows that reach a root, so it terminates on
   every parent relation. `chain` is the path of rows it came down, needed for termination only.
   */
  function Build(rows: seq<Location>, byParent: map<Option<nat>, seq<Location>>,
                 parent: Option<nat>, ghost chain: seq<Location>): (nodes: seq<Node>)
    requires UniqueIds(rows) && ChainOrTop(rows, chain) && parent == TopOf(chain)
    requires Groups(rows, byParent)
    decreases |Unvisited(rows, chain)|, |rows| + 1
  {
    var children := if parent in byParent then byParent[parent] else [];
    BuildEach(rows, byParent, children, parent, chain)
  }

  function BuildEach(rows: seq<Location>, byParent: map<Option<nat>, seq<Location>>, children: seq<Location>,
                     parent: Option<nat>, ghost chain: seq<Location>): (nodes: seq<Node>)
    requires UniqueIds(rows) && ChainOrTop(rows, chain) && parent == TopOf(chain)
    requires Groups(rows, byParent)
    requires forall c :: c in children ==> c in rows && c.parent == parent
    ensures |nodes| == |children|
    decreases |Unvisited(rows, chain)|, |children|
  {
    if children == [] then []
    else
      var c := children[0];
      ChildIsUnvisited(rows, chain, c);
      [Node(c, Build(rows, byParent, Some(c.id), [c] + chain))]
      + BuildEach(rows, byParent, children[1..], parent, chain)
  }

  /** The map holds, under each parent that occurs, that parent's rows in order. */
  ghost predicate Groups(rows: seq<Location>, byParent: map<Option<nat>, seq<Location>>) {
    && (forall p :: p in byParent ==> byParent[p] == ChildrenOf(rows, p))
    && (forall r :: r in rows ==> r.parent in byParent)
  }

  method GetLocationTree(rows: seq<Location>) returns (forest: seq<Node>)
    requires UniqueIds(rows)
    ensures Arranged(rows, None, forest)
    ensures forall r :: r in Rows(forest) <==> r in rows && ReachesRoot(rows, r)
    ensures forall i, j :: 0 <= i < j < |Rows(forest)| ==> Rows(forest)[i] != Rows(forest)[j]
  {
    var byParent: map<Option<nat>, seq<Location>> := map[];
    for i := 0 to |rows|
      invariant Groups(rows[..i], byParent)
    {
      var r := rows[i];
      assert rows[..i + 1][..i] == rows[..i];
      NoGroupNoChildren(rows[..i], byParent, r.parent);
      var arr := if r.parent in byParent then byParent[r.parent] else [];
      byParent := byParent[r.parent := arr + [r]];
    }
    assert rows[..|rows|] == rows;
    forest := Build(rows, byParent, None, []);
    BuildPlacesWell(rows, byParent, None, []);
    PlacedIsArranged(rows, None, forest);
    BuildHasNoRepetition(rows, byParent, None, []);
    forall r
      ensures r in Rows(forest) <==> r in rows && ReachesRoot(rows, r)
    {
      BuildHoldsDescendants(rows, byParent, None, [], r);
      DescendsFromTop(rows, r);
    }
  }

  lemma NoGroupNoChildren(rows: seq<Location>, byParent: map<Option<nat>, seq<Location>>, p: Option<nat>)
    requires Groups(rows, byParent)
    ensures (if p in byParent then byParent[p] else []) == ChildrenOf(rows, p)
  {
    if ChildrenOf(rows, p) != [] {
      assert ChildrenOf(rows, p)[0] in ChildrenOf(rows, p);
    }
  }

  // ---------------------------------------------------------------------------
  // What the forest holds
  // ---------------------------------------------------------------------------

  /** Under every node (and at the top) exactly the children in code order. */
  ghost predicate WellPlaced(rows: seq<Location>, parent: Option<nat>, nodes: seq<Node>) {
    Placed(rows, ChildrenOf(rows, parent), nodes)
  }

  ghost predicate Placed(rows: seq<Location>, children: seq<Location>, nodes: seq<Node>)
    decreases nodes
  {
    && |nodes| == |children|
    && forall i :: 0 <= i < |nodes| ==>
         nodes[i].row == children[i] && Placed(rows, ChildrenOf(rows, Some(children[i].id)), nodes[i].children)
  }

  /** `a` comes earlier than `b` in the listing. */
  ghost predicate Before(rows: seq<Location>, a: Location, b: Location) {
    exists m, n :: 0 <= m < n < |rows| && rows[m] == a && rows[n] == b
  }

  /**
   The nodes stand for exactly the rows with this parent, each sibling before the next as in the
   listing, and so on below every node.
   */
  ghost predicate Arranged(rows: seq<Location>, parent: Option<nat>, nodes: seq<Node>)
    decreases nodes
  {
    && (forall r :: r in rows && r.parent == parent ==> exists i :: 0 <= i < |nodes| && nodes[i].row == r)
    && (forall i :: 0 <= i < |nodes| ==> nodes[i].row in rows && nodes[i].row.parent == parent)
    && (forall i, j :: 0 <= i < j < |nodes| ==> Before(rows, nodes[i].row, nodes[j].row))
    && forall i :: 0 <= i < |nodes| ==> Arranged(rows, Some(nodes[i].row.id), nodes[i].children)
  }

  lemma {:induction false} ChildrenInOrder(rows: seq<Location>, parent: Option<nat>, i: nat, j: nat)
    requires i < j < |ChildrenOf(rows, parent)|
    ensures Before(rows, ChildrenOf(rows, parent)[i], ChildrenOf(rows, parent)[j])
  {
    var n := |rows| - 1;
    var earlier := ChildrenOf(rows[..n], parent);
    var a := earlier[i];
    if j < |earlier| {
      ChildrenInOrder(rows[..n], parent, i, j);
      var m, k :| 0 <= m < k < n && rows[..n][m] == a && rows[..n][k] == earlier[j];
      assert rows[m] == a && rows[k] == earlier[j];
    } else {
      assert a in rows[..n];
      var m :| 0 <= m < n && rows[..n][m] == a;
      assert rows[m] == a;
    }
  }

  lemma {:induction false} PlacedIsArranged(rows: seq<Location>, parent: Option<nat>, nodes: seq<Node>)
    requires WellPlaced(rows, parent, nodes)
    ensures Arranged(rows, parent, nodes)
    decreases nodes
  {
    var children := ChildrenOf(rows, parent);
    forall r | r in rows && r.parent == parent
      ensures exists i :: 0 <= i < |nodes| && nodes[i].row == r
    {
      var i :| 0 <= i < |children| && children[i] == r;
      assert nodes[i].row == r;
    }
    forall i | 0 <= i < |nodes|
      ensures nodes[i].row in rows && nodes[i].row.parent == parent
      ensures Arranged(rows, Some(nodes[i].row.id), nodes[i].children)
    {
      assert children[i] in children;
      PlacedIsArranged(rows, Some(nodes[i].row.id), nodes[i].children);
    }
    forall i, j | 0 <= i < j < |nodes|
      ensures Before(rows, nodes[i].row, nodes[j].row)
    {
      ChildrenInOrder(rows, parent, i, j);
    }
  }

  ghost predicate ListedBy(rows: seq<Location>, le: (string, string) -> bool) {
    forall m, n :: 0 <= m < n < |rows| ==> le(rows[m].code, rows[n].code)
  }

  ghost predicate SiblingsInOrder(nodes: seq<Node>, le: (string, string) -> bool)
    decreases nodes
  {
    && (forall i, j :: 0 <= i < j < |nodes| ==> le(nodes[i].row.code, nodes[j].row.code))
    && forall i :: 0 <= i < |nodes| ==> SiblingsInOrder(nodes[i].children, le)
  }

  /** Whatever order of codes the rows were listed by, siblings are in that order everywhere in the tree. */
  lemma {:induction false} SiblingsKeepCodeOrder(rows: seq<Location>, parent: Option<nat>, nodes: seq<Node>,
                                                 le: (string, string) -> bool)
    requires Arranged(rows, parent, nodes) && ListedBy(rows, le)
    ensures SiblingsInOrder(nodes, le)
    decreases nodes
  {
    forall i, j | 0 <= i < j < |nodes|
      ensures le(nodes[i].row.code, nodes[j].row.code)
    {
      assert Before(rows, nodes[i].row, nodes[j].row);
    }
    forall i | 0 <= i < |nodes|
      ensures SiblingsInOrder(nodes[i].children, le)
    {
      SiblingsKeepCodeOrder(rows, Some(nodes[i].row.id), nodes[i].children, le);
    }
  }

  /** All rows of a forest, parents before their children. */
  function Rows(nodes: seq<Node>): seq<Location> {
    if nodes == [] then [] else [nodes[0].row] + Rows(nodes[0].children) + Rows(nodes[1..])
  }

  lemma BuildPlacesWell(rows: seq<Location>, byParent: map<Option<nat>, seq<Location>>,
                        parent: Option<nat>, chain: seq<Location>)
    requires UniqueIds(rows) && ChainOrTop(rows, chain) && parent == TopOf(chain) && Groups(rows, byParent)
    ensures WellPlaced(rows, parent, Build(rows, byParent, parent, chain))
    decreases |Unvisited(rows, chain)|, |rows| + 1
  {
    NoGroupNoChildren(rows, byParent, parent);
    EachIsPlaced(rows, byParent, ChildrenOf(rows, parent), parent, chain);
  }

  lemma PlacedCons(rows: seq<Location>, children: seq<Location>, node: Node, rest: seq<Node>)
    requires children != [] && node.row == children[0]
    requires Placed(rows, ChildrenOf(rows, Some(node.row.id)), node.children)
    requires Placed(rows, children[1..], rest)
    ensures Placed(rows, children, [node] + rest)
  {
    var nodes := [node] + rest;
    forall i | 0 <= i < |nodes|
      ensures nodes[i].row == children[i] && Placed(rows, ChildrenOf(rows, Some(children[i].id)), nodes[i].children)
    {
      if i > 0 {
        assert nodes[i] == rest[i - 1] && children[i] == children[1..][i - 1];
      }
    }
  }

  lemma {:induction false} EachIsPlaced(rows: seq<Location>, byParent: map<Option<nat>, seq<Location>>,
                                        children: seq<Location>, parent: Option<nat>, chain: seq<Location>)
    requires UniqueIds(rows) && ChainOrTop(rows, chain) && parent == TopOf(chain) && Groups(rows, byParent)
    requires forall c :: c in children ==> c in rows && c.parent == parent
    ensures Placed(rows, children, BuildEach(rows, byParent, children, parent, chain))
    decreases |Unvisited(rows, chain)|, |children|
  {
    if children != [] {
      var c := children[0];
      ChildIsUnvisited(rows, chain, c);
      BuildPlacesWell(rows, byParent, Some(c.id), [c] + chain);
      EachIsPlaced(rows, byParent, children[1..], parent, chain);
      PlacedCons(rows, children, Node(c, Build(rows, byParent, Some(c.id), [c] + chain)),
                 BuildEach(rows, byParent, children[1..], parent, chain));
    }
  }

  /** `r` has a chain to a root that passes below the first row of `chain` (or below the top). */
  ghost predicate Descends(rows: seq<Location>, r: Location, chain: seq<Location>) {
    exists up :: Chain(rows, up) && up[0] == r && |up| > |chain| && up[|up| - |chain|..] == chain
  }

  lemma DescendsFromTop(rows: seq<Location>, r: Location)
    ensures Descends(rows, r, []) <==> ReachesRoot(rows, r)
  {
    if ReachesRoot(rows, r) {
      var up: seq<Location> :| Chain(rows, up) && up[0] == r;
      assert up[|up| - 0..] == [];
    }
  }

  ghost predicate AtOrUnder(rows: seq<Location>, r: Location, c: Location, chain: seq<Location>) {
    r == c || Descends(rows, r, [c] + chain)
  }

  ghost predicate UnderSome(rows: seq<Location>, r: Location, children: seq<Location>, chain: seq<Location>) {
    exists c :: c in children && AtOrUnder(rows, r, c, chain)
  }

  lemma UnderSomeCons(rows: seq<Location>, r: Location, children: seq<Location>, chain: seq<Location>)
    requires children != []
    ensures UnderSome(rows, r, children, chain)
            <==> AtOrUnder(rows, r, children[0], chain) || UnderSome(rows, r, children[1..], chain)
  {
    assert forall x :: x in children <==> x == children[0] || x in children[1..];
  }

  /** A row below `chain` is at or under the child on its way down. */
  lemma FindChild(rows: seq<Location>, r: Location, chain: seq<Location>) returns (c: Location)
    requires Descends(rows, r, chain)
    ensures c in rows && c.parent == TopOf(chain) && AtOrUnder(rows, r, c, chain)
  {
    var up: seq<Location> :| Chain(rows, up) && up[0] == r && |up| > |chain| && up[|up| - |chain|..] == chain;
    var k := |up| - |chain| - 1;
    c := up[k];
    assert up[k..] == [c] + chain;
    if chain != [] {
      assert up[k + 1] == up[k..][1];
      assert up[k].parent == Some(up[k + 1].id);
    }
    if k > 0 {
      assert up[|up| - |[c] + chain|..] == [c] + chain;
    }
  }

  lemma UnderChildIsBelow(rows: seq<Location>, r: Location, c: Location, chain: seq<Location>)
    requires ChainOrTop(rows, chain) && c in rows && c.parent == TopOf(chain)
    requires AtOrUnder(rows, r, c, chain)
    ensures Descends(rows, r, chain)
  {
    ExtendChain(rows, chain, c);
    var up := ChainThrough(rows, r, c, chain);
    assert up[|up| - |chain|..] == up[|up| - |chain| - 1..][1..];
  }

  lemma BuildHoldsDescendants(rows: seq<Location>, byParent: map<Option<nat>, seq<Location>>,
                              parent: Option<nat>, chain: seq<Location>, r: Location)
    requires UniqueIds(rows) && ChainOrTop(rows, chain) && parent == TopOf(chain) && Groups(rows, byParent)
    ensures r in Rows(Build(rows, byParent, parent, chain)) <==> Descends(rows, r, chain)
    decreases |Unvisited(rows, chain)|, |rows| + 1
  {
    var children := ChildrenOf(rows, parent);
    NoGroupNoChildren(rows, byParent, parent);
    EachHoldsDescendants(rows, byParent, children, parent, chain, r);
    if Descends(rows, r, chain) {
      var c := FindChild(rows, r, chain);
      assert c in children;
    }
    if c :| c in children && AtOrUnder(rows, r, c, chain) {
      UnderChildIsBelow(rows, r, c, chain);
    }
  }

  lemma {:induction false} EachHoldsDescendants(rows: seq<Location>, byParent: map<Option<nat>, seq<Location>>,
                                                children: seq<Location>, parent: Option<nat>, chain: seq<Location>,
                                                r: Location)
    requires UniqueIds(rows) && ChainOrTop(rows, chain) && parent == TopOf(chain) && Groups(rows, byParent)
    requires forall c :: c in children ==> c in rows && c.parent == parent
    ensures r in Rows(BuildEach(rows, byParent, children, parent, chain))
            <==> UnderSome(rows, r, children, chain)
    decreases |Unvisited(rows, chain)|, |children|
  {
    if children != [] {
      var c := children[0];
      ChildIsUnvisited(rows, chain, c);
      BuildHoldsDescendants(rows, byParent, Some(c.id), [c] + chain, r);
      EachHoldsDescendants(rows, byParent, children[1..], parent, chain, r);
      FirstOfRows(Node(c, Build(rows, byParent, Some(c.id), [c] + chain)),
                  BuildEach(rows, byParent, children[1..], parent, chain), r);
      UnderSomeCons(rows, r, children, chain);
    }
  }

  lemma FirstOfRows(node: Node, rest: seq<Node>, r: Location)
    ensures r in Rows([node] + rest) <==> r == node.row || r in Rows(node.children) || r in Rows(rest)
  {
    assert ([node] + rest)[1..] == rest;
  }

  ghost predicate NoRepetition(rs: seq<Location>) {
    forall i, j :: 0 <= i < j < |rs| ==> rs[i] != rs[j]
  }

  /** A row cannot be at or under two siblings. */
  lemma SiblingsShareNothing(rows: seq<Location>, r: Location, c: Location, d: Location, chain: seq<Location>)
    requires UniqueIds(rows) && ChainOrTop(rows, chain)
    requires c in rows && d in rows && c.parent == d.parent == TopOf(chain)
    requires AtOrUnder(rows, r, c, chain) && AtOrUnder(rows, r, d, chain)
    ensures c == d
  {
    ExtendChain(rows, chain, c);
    ExtendChain(rows, chain, d);
    var a := ChainThrough(rows, r, c, chain);
    var b := ChainThrough(rows, r, d, chain);
    ChainIsUnique(rows, a, b);
    assert ([c] + chain)[0] == ([d] + chain)[0];
  }

  lemma ChainThrough(rows: seq<Location>, r: Location, c: Location, chain: seq<Location>) returns (up: seq<Location>)
    requires Chain(rows, [c] + chain)
    requires AtOrUnder(rows, r, c, chain)
    ensures Chain(rows, up) && up[0] == r && |up| > |chain| && up[|up| - |chain| - 1..] == [c] + chain
  {
    if r == c {
      up := [c] + chain;
    } else {
      up :| Chain(rows, up) && up[0] == r && |up| > |[c] + chain| && up[|up| - |[c] + chain|..] == [c] + chain;
    }
  }

  /** A row is not below itself. */
  lemma NotBelowItself(rows: seq<Location>, c: Location, chain: seq<Location>)
    requires UniqueIds(rows) && Chain(rows, [c] + chain)
    ensures !Descends(rows, c, [c] + chain)
  {
    if Descends(rows, c, [c] + chain) {
      var up :| Chain(rows, up) && up[0] == c && |up| > |[c] + chain| && up[|up| - |[c] + chain|..] == [c] + chain;
      ChainIsUnique(rows, up, [c] + chain);
    }
  }

  lemma BuildHasNoRepetition(rows: seq<Location>, byParent: map<Option<nat>, seq<Location>>,
                             parent: Option<nat>, chain: seq<Location>)
    requires UniqueIds(rows) && ChainOrTop(rows, chain) && parent == TopOf(chain) && Groups(rows, byParent)
    ensures NoRepetition(Rows(Build(rows, byParent, parent, chain)))
    decreases |Unvisited(rows, chain)|, |rows| + 1
  {
    NoGroupNoChildren(rows, byParent, parent);
    ChildrenDistinct(rows, parent);
    EachHasNoRepetition(rows, byParent, ChildrenOf(rows, parent), parent, chain);
  }

  lemma {:induction false} ChildrenDistinct(rows: seq<Location>, parent: Option<nat>)
    requires UniqueIds(rows)
    ensures NoRepetition(ChildrenOf(rows, parent))
  {
    if rows != [] {
      ChildrenDistinct(rows[..|rows| - 1], parent);
    }
  }

  lemma {:induction false} EachHasNoRepetition(rows: seq<Location>, byParent: map<Option<nat>, seq<Location>>,
                                               children: seq<Location>, parent: Option<nat>, chain: seq<Location>)
    requires UniqueIds(rows) && ChainOrTop(rows, chain) && parent == TopOf(chain) && Groups(rows, byParent)
    requires forall c :: c in children ==> c in rows && c.parent == parent
    requires NoRepetition(children)
    ensures NoRepetition(Rows(BuildEach(rows, byParent, children, parent, chain)))
    decreases |Unvisited(rows, chain)|, |children|
  {
    if children != [] {
      var c := children[0];
      NodeHasNoRepetition(rows, byParent, c, chain);
      var node := Node(c, Build(rows, byParent, Some(c.id), [c] + chain));
      var rest := BuildEach(rows, byParent, children[1..], parent, chain);
      EachHasNoRepetition(rows, byParent, children[1..], parent, chain);
      forall r | r in Rows(rest)
        ensures r !in [c] + Rows(node.children)
      {
        OthersAreElsewhere(rows, byParent, children, parent, chain, r);
      }
      Concatenation([c] + Rows(node.children), Rows(rest));
      RowsCons(node, rest);
    }
  }

  lemma NodeHasNoRepetition(rows: seq<Location>, byParent: map<Option<nat>, seq<Location>>,
                            c: Location, chain: seq<Location>)
    requires UniqueIds(rows) && ChainOrTop(rows, chain) && Groups(rows, byParent)
    requires c in rows && c.parent == TopOf(chain)
    ensures Chain(rows, [c] + chain)
    ensures NoRepetition([c] + Rows(Build(rows, byParent, Some(c.id), [c] + chain)))
    decreases |Unvisited(rows, chain)|, 0
  {
    ChildIsUnvisited(rows, chain, c);
    BuildHasNoRepetition(rows, byParent, Some(c.id), [c] + chain);
    BuildHoldsDescendants(rows, byParent, Some(c.id), [c] + chain, c);
    NotBelowItself(rows, c, chain);
    Concatenation([c], Rows(Build(rows, byParent, Some(c.id), [c] + chain)));
  }

  lemma RowsCons(node: Node, rest: seq<Node>)
    ensures Rows([node] + rest) == [node.row] + Rows(node.children) + Rows(rest)
  {
    assert ([node] + rest)[1..] == rest;
  }

  lemma OthersAreElsewhere(rows: seq<Location>, byParent: map<Option<nat>, seq<Location>>,
                           children: seq<Location>, parent: Option<nat>, chain: seq<Location>, r: Location)
    requires UniqueIds(rows) && ChainOrTop(rows, chain) && parent == TopOf(chain) && Groups(rows, byParent)
    requires forall c :: c in children ==> c in rows && c.parent == parent
    requires NoRepetition(children) && children != []
    requires r in Rows(BuildEach(rows, byParent, children[1..], parent, chain))
    ensures r != children[0]
    ensures Chain(rows, [children[0]] + chain)
    ensures r !in Rows(Build(rows, byParent, Some(children[0].id), [children[0]] + chain))
  {
    var c := children[0];
    ExtendChain(rows, chain, c);
    EachHoldsDescendants(rows, byParent, children[1..], parent, chain, r);
    BuildHoldsDescendants(rows, byParent, Some(c.id), [c] + chain, r);
    var d :| d in children[1..] && AtOrUnder(rows, r, d, chain);
    if AtOrUnder(rows, r, c, chain) {
      SiblingsShareNothing(rows, r, c, d, chain);
    }
  }

  lemma Concatenation(a: seq<Location>, b: seq<Location>)
    requires NoRepetition(a) && NoRepetition(b)
    requires forall r :: r in b ==> r !in a
    ensures NoRepetition(a + b)
  {
    forall i, j | 0 <= i < j < |a + b|
      ensures (a + b)[i] != (a + b)[j]
    {
      if i < |a| <= j {
        assert b[j - |a|] in b && a[i] in a;
      }
    }
  }

  // ---------------------------------------------------------------------------
  // What the updates let the parent relation become
  // ---------------------------------------------------------------------------

  /** Insertion checks the parent's existence; the id is new. */
  function Inserted(rows: seq<Location>, id: nat, code: string, parent: Option<nat>): Result<seq<Location>> {
    if exists r :: r in rows && r.code == code then Failure("CONFLICT")
    else if parent.Some? && !(exists r :: r in rows && r.id == parent.value) then Failure("ORG_LOCATION_PARENT_NOT_FOUND")
    else Success(rows + [Location(id, code, parent)])
  }

  function MoveRow(r: Location, id: nat, parent: Option<nat>): Location {
    if r.id == id then r.(parent := parent) else r
  }

  function Moved(rows: seq<Location>, id: nat, parent: Option<nat>): seq<Location> {
    seq(|rows|, i requires 0 <= i < |rows| => MoveRow(rows[i], id, parent))
  }

  /** A new parent must exist and must not be the row itself; longer cycles are not looked for. */
  function Reparented(rows: seq<Location>, id: nat, parent: Option<nat>): Result<seq<Location>> {
    if !(exists r :: r in rows && r.id == id) then Failure("NOT_FOUND")
    else if parent == Some(id) then Failure("ORG_LOCATION_CYCLE")
    else if parent.Some? && !(exists r :: r in rows && r.id == parent.value) then Failure("ORG_LOCATION_PARENT_NOT_FOUND")
    else Success(Moved(rows, id, parent))
  }

  class LocationTable {
    var rows: seq<Location>

    method CreateLocation(id: nat, code: string, parent: Option<nat>) returns (r: Result<()>)
      modifies this
      ensures match Inserted(old(rows), id, code, parent)
              case Success(after) => r.Success? && rows == after
              case Failure(e) => r == Failure(e) && rows == old(rows)
      ensures r.Success? <==>
              && (forall x :: x in old(rows) ==> x.code != code)
              && (parent.Some? ==> exists x :: x in old(rows) && x.id == parent.value)
      ensures r.Success? ==> rows == old(rows) + [Location(id, code, parent)]
    {
      if exists x :: x in rows && x.code == code {
        return Failure("CONFLICT");
      }
      if parent.Some? && !(exists x :: x in rows && x.id == parent.value) {
        return Failure("ORG_LOCATION_PARENT_NOT_FOUND");
      }
      rows := rows + [Location(id, code, parent)];
      return Success(());
    }

    /** `parent` is absent when the request leaves the parent alone. */
    method UpdateLocation(id: nat, parent: Option<Option<nat>>) returns (r: Result<()>)
      modifies this
      ensures parent.Some? ==> match Reparented(old(rows), id, parent.value)
                               case Success(after) => r.Success? && rows == after
                               case Failure(e) => r == Failure(e) && rows == old(rows)
      ensures r.Success? <==>
              && (exists x :: x in old(rows) && x.id == id)
              && (parent.Some? && parent.value.Some? ==>
                    parent.value.value != id && exists x :: x in old(rows) && x.id == parent.value.value)
      ensures r.Success? ==>
                && |rows| == |old(rows)|
                && forall i :: 0 <= i < |rows| ==>
                     rows[i] == Location(old(rows)[i].id, old(rows)[i].code,
                                         if parent.Some? && old(rows)[i].id == id then parent.value else old(rows)[i].parent)
      ensures parent.None? && r.Failure? ==> rows == old(rows) && r == Failure("NOT_FOUND")
    {
      if !exists x :: x in rows && x.id == id {
        return Failure("NOT_FOUND");
      }
      if parent.Some? && parent.value.Some? {
        if parent.value.value == id {
          return Failure("ORG_LOCATION_CYCLE");
        }
        if !exists x :: x in rows && x.id == parent.value.value {
          return Failure("ORG_LOCATION_PARENT_NOT_FOUND");
        }
      }
      if parent.Some? {
        rows := Moved(rows, id, parent.value);
      }
      return Success(());
    }
  }

  /** What every sequence of creations and updates keeps. */
  ghost predicate WellFormed(rows: seq<Location>) {
    && UniqueIds(rows)
    && (forall r :: r in rows && r.parent.Some? ==> r.parent.value != r.id && exists p :: p in rows && p.id == r.parent.value)
  }

  lemma MovedHolds(rows: seq<Location>, id: nat, parent: Option<nat>, r: Location)
    ensures r in rows ==> MoveRow(r, id, parent) in Moved(rows, id, parent)
    ensures r in Moved(rows, id, parent) <==> exists x :: x in rows && r == MoveRow(x, id, parent)
  {
    var after := Moved(rows, id, parent);
    if r in rows {
      var i :| 0 <= i < |rows| && rows[i] == r;
      assert after[i] == MoveRow(r, id, parent);
    }
    if x :| x in rows && r == MoveRow(x, id, parent) {
      var i :| 0 <= i < |rows| && rows[i] == x;
      assert after[i] == r;
    }
    if r in after {
      var i :| 0 <= i < |after| && after[i] == r;
      assert rows[i] in rows;
    }
  }

  lemma InsertKeepsWellFormed(rows: seq<Location>, id: nat, code: string, parent: Option<nat>)
    requires WellFormed(rows) && (forall r :: r in rows ==> r.id != id) && Inserted(rows, id, code, parent).Success?
    ensures WellFormed(Inserted(rows, id, code, parent).value)
  {
    var after := Inserted(rows, id, code, parent).value;
    forall r | r in after && r.parent.Some?
      ensures r.parent.value != r.id && exists p :: p in after && p.id == r.parent.value
    {
      assert exists p :: p in rows && p.id == r.parent.value;
    }
  }

  lemma MoveKeepsWellFormed(rows: seq<Location>, id: nat, parent: Option<nat>)
    requires WellFormed(rows) && Reparented(rows, id, parent).Success?
    ensures WellFormed(Reparented(rows, id, parent).value)
  {
    var after := Moved(rows, id, parent);
    forall r | r in after && r.parent.Some?
      ensures r.parent.value != r.id && exists p :: p in after && p.id == r.parent.value
    {
      MovedHolds(rows, id, parent, r);
      var p :| p in rows && p.id == r.parent.value;
      MovedHolds(rows, id, parent, p);
      assert MoveRow(p, id, parent).id == p.id;
    }
  }

  // ---------------------------------------------------------------------------
  // Exactly which moves keep the forest whole
  // ---------------------------------------------------------------------------

  ghost predicate AllReachRoot(rows: seq<Location>) {
    forall r :: r in rows ==> ReachesRoot(rows, r)
  }

  /** The row with this id lies on the way from `p` up to its root. */
  ghost predicate Above(rows: seq<Location>, id: nat, p: Location) {
    exists chain: seq<Location> :: Chain(rows, chain) && chain[0] == p && exists k :: 0 <= k < |chain| && chain[k].id == id
  }

  lemma UnmovedChain(rows: seq<Location>, id: nat, parent: Option<nat>, chain: seq<Location>)
    requires Chain(rows, chain) && forall k :: 0 <= k < |chain| ==> chain[k].id != id
    ensures Chain(Moved(rows, id, parent), chain)
  {
    forall i | 0 <= i < |chain|
      ensures chain[i] in Moved(rows, id, parent)
    {
      MovedHolds(rows, id, parent, chain[i]);
    }
  }

  /** The way up to the moved row goes on from there to its new parent. */
  lemma ReroutedChain(rows: seq<Location>, id: nat, parent: Option<nat>, chain: seq<Location>, k: nat, up: seq<Location>)
    requires Chain(rows, chain) && k < |chain| && chain[k].id == id
    requires forall i :: 0 <= i < k ==> chain[i].id != id
    requires ChainOrTop(Moved(rows, id, parent), up) && parent == TopOf(up)
    ensures Chain(Moved(rows, id, parent), chain[..k] + ([MoveRow(chain[k], id, parent)] + up))
  {
    var after := Moved(rows, id, parent);
    var tail := [MoveRow(chain[k], id, parent)] + up;
    MovedHolds(rows, id, parent, chain[k]);
    ExtendChain(after, up, tail[0]);
    var way := chain[..k] + tail;
    forall i | 0 <= i < |way|
      ensures way[i] in after
    {
      if i < k {
        MovedHolds(rows, id, parent, chain[i]);
      } else {
        assert way[i] == tail[i - k];
      }
    }
    forall i | 0 <= i < |way| - 1
      ensures way[i].parent == Some(way[i + 1].id)
    {
      if i >= k {
        assert way[i] == tail[i - k] && way[i + 1] == tail[i + 1 - k];
      }
    }
  }

  lemma FirstOnChain(chain: seq<Location>, id: nat, n: nat) returns (k: nat)
    requires n < |chain| && chain[n].id == id
    ensures k <= n && chain[k].id == id && forall i :: 0 <= i < k ==> chain[i].id != id
  {
    k := 0;
    while chain[k].id != id
      invariant k <= n && forall i :: 0 <= i < k ==> chain[i].id != id
      decreases n - k
    {
      k := k + 1;
    }
  }

  lemma RowStillReachesRoot(rows: seq<Location>, id: nat, parent: Option<nat>, r: Location, up: seq<Location>)
    requires r in rows && ReachesRoot(rows, r)
    requires ChainOrTop(Moved(rows, id, parent), up) && parent == TopOf(up)
    ensures ReachesRoot(Moved(rows, id, parent), MoveRow(r, id, parent))
  {
    var chain: seq<Location> :| Chain(rows, chain) && chain[0] == r;
    if n :| 0 <= n < |chain| && chain[n].id == id {
      var k := FirstOnChain(chain, id, n);
      ReroutedChain(rows, id, parent, chain, k, up);
      var way := chain[..k] + ([MoveRow(chain[k], id, parent)] + up);
      assert way[0] == MoveRow(r, id, parent);
    } else {
      UnmovedChain(rows, id, parent, chain);
    }
  }

  /** From a row below the moved one, every way up in the new table comes back to the moved row. */
  lemma {:induction false} WayUpComesBack(rows: seq<Location>, id: nat, parent: Option<nat>,
                                          chain: seq<Location>, k: nat, way: seq<Location>)
    requires UniqueIds(rows) && Chain(rows, chain) && k < |chain| && chain[k].id == id
    requires Chain(Moved(rows, id, parent), way) && way[0].id == chain[0].id
    ensures exists j :: 0 <= j < |way| && way[j].id == id
    decreases k
  {
    if way[0].id == id {
    } else {
      MovedHolds(rows, id, parent, way[0]);
      SameIdSameRow(rows, way[0], chain[0]);
      assert k > 0;
      RootEndsChain(rows, chain);
      RootEndsChain(Moved(rows, id, parent), way);
      WayUpComesBack(rows, id, parent, chain[1..], k - 1, way[1..]);
      var j :| 0 <= j < |way[1..]| && way[1..][j].id == id;
      assert way[j + 1].id == id;
    }
  }

  lemma MovedUniqueIds(rows: seq<Location>, id: nat, parent: Option<nat>)
    requires UniqueIds(rows)
    ensures UniqueIds(Moved(rows, id, parent))
  {
  }

  /** A row moved below itself is lost. */
  lemma MovedBelowItselfIsLost(rows: seq<Location>, id: nat, p: Location, r: Location)
    requires UniqueIds(rows) && p in rows && p.id != id && Above(rows, id, p)
    requires r in Moved(rows, id, Some(p.id)) && r.id == id
    ensures !ReachesRoot(Moved(rows, id, Some(p.id)), r)
  {
    var parent := Some(p.id);
    var after := Moved(rows, id, parent);
    if ReachesRoot(after, r) {
      var way: seq<Location> :| Chain(after, way) && way[0] == r;
      MovedHolds(rows, id, parent, r);
      RootEndsChain(after, way);
      var chain: seq<Location> :| Chain(rows, chain) && chain[0] == p && exists k :: 0 <= k < |chain| && chain[k].id == id;
      var k :| 0 <= k < |chain| && chain[k].id == id;
      WayUpComesBack(rows, id, parent, chain, k, way[1..]);
      var j :| 0 <= j < |way[1..]| && way[1..][j].id == id;
      MovedUniqueIds(rows, id, parent);
      SameIdSameRow(after, way[0], way[j + 1]);
      ChainHasNoRepetition(after, way, 0, j + 1);
    }
  }

  /**
   In a forest whose rows all reach a root, an accepted update keeps it so exactly when the new
   parent is not below the moved row: the moved row is not on the parent's way up.
   */
  lemma MoveKeepsForestIff(rows: seq<Location>, id: nat, parent: Option<nat>)
    requires WellFormed(rows) && AllReachRoot(rows) && Reparented(rows, id, parent).Success?
    ensures AllReachRoot(Reparented(rows, id, parent).value)
            <==> (parent.Some? ==> forall p :: p in rows && p.id == parent.value ==> !Above(rows, id, p))
  {
    var after := Moved(rows, id, parent);
    if parent.None? {
      KeepsForest(rows, id, parent, []);
    } else {
      var p :| p in rows && p.id == parent.value;
      if Above(rows, id, p) {
        var m :| m in rows && m.id == id;
        MovedHolds(rows, id, parent, m);
        MovedBelowItselfIsLost(rows, id, p, MoveRow(m, id, parent));
      } else {
        var up: seq<Location> :| Chain(rows, up) && up[0] == p;
        UnmovedChain(rows, id, parent, up);
        KeepsForest(rows, id, parent, up);
        forall q | q in rows && q.id == parent.value
          ensures !Above(rows, id, q)
        {
          SameIdSameRow(rows, p, q);
        }
      }
    }
  }

  lemma KeepsForest(rows: seq<Location>, id: nat, parent: Option<nat>, up: seq<Location>)
    requires AllReachRoot(rows)
    requires ChainOrTop(Moved(rows, id, parent), up) && parent == TopOf(up)
    ensures AllReachRoot(Moved(rows, id, parent))
  {
    forall r | r in Moved(rows, id, parent)
      ensures ReachesRoot(Moved(rows, id, parent), r)
    {
      MovedHolds(rows, id, parent, r);
      var x :| x in rows && r == MoveRow(x, id, parent);
      RowStillReachesRoot(rows, id, parent, x, up);
    }
  }

  /** An accepted update can close a cycle, whose rows then vanish from the tree. */
  lemma CycleHidesRows()
    ensures
      var rows := [Location(1, "A", None), Location(2, "B", Some(1))];
      var after := Reparented(rows, 1, Some(2));
      && WellFormed(rows) && AllReachRoot(rows) && after.Success?
      && forall r :: r in after.value ==> !ReachesRoot(after.value, r)
  {
    var a, b := Location(1, "A", None), Location(2, "B", Some(1));
    var rows := [a, b];
    assert a in rows && b in rows;
    assert Chain(rows, [a]) && Chain(rows, [b, a]);
    assert rows == [a] + [b] && forall r :: r in rows ==> r == a || r == b;
    assert ReachesRoot(rows, a) && ReachesRoot(rows, b);
    var after := Reparented(rows, 1, Some(2)).value;
    assert after == [Location(1, "A", Some(2)), b];
    forall chain
      ensures !Chain(after, chain)
    {
    }
  }
}
