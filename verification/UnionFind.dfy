/**
 The disjoint-set forest behind independence inference: a `parent` map, `Find`
 with path compression and `Union`.

 The ghost fields say what the forest stands for: `edges` are the unions asked
 for so far, `root` names the representative of every node, and `rank` rises
 along parent links, so that links cannot form a cycle.
 */
module UnionFind {
  import opened Paths

  /** A node of the attribute graph; each kind has its own name space. */
  datatype Node = Source(id: string) | Operator(id: string) | Origin(id: string) | Asn(id: string)

  type Parents = map<Node, Node>

  /** The representative of each node; nodes not listed stand for themselves. */
  type Roots = map<Node, Node>

  function RootOf(root: Roots, n: Node): Node {
    if n in root then root[n] else n
  }

  predicate IsRoot(parent: Parents, n: Node) {
    n !in parent || parent[n] == n
  }

  function RankOf(rank: map<Node, nat>, n: Node): nat {
    if n in rank then rank[n] else 0
  }

  /** Ranks rise along a parent link. */
  predicate Below(parent: Parents, rank: map<Node, nat>, bound: nat, n: Node) {
    RankOf(rank, n) <= bound && (IsRoot(parent, n) || RankOf(rank, n) < RankOf(rank, parent[n]))
  }

  ghost predicate Climbs(parent: Parents, rank: map<Node, nat>, bound: nat) {
    forall n: Node :: Below(parent, rank, bound, n)
  }

  /** `RootOf(root, n)` is a root, and the one the parent of `n` leads to. */
  predicate LeadsTo(parent: Parents, root: Roots, n: Node) {
    && (IsRoot(parent, n) <==> RootOf(root, n) == n)
    && (n in parent ==> RootOf(root, parent[n]) == RootOf(root, n))
    && RootOf(root, RootOf(root, n)) == RootOf(root, n)
  }

  /** `root` names, for every node, the root its parent links lead to. */
  ghost predicate Represents(parent: Parents, root: Roots) {
    forall n: Node :: LeadsTo(parent, root, n)
  }

  ghost function Adjacency(edges: set<(Node, Node)>): (Node, Node) -> bool {
    (x: Node, y: Node) => (x, y) in edges || (y, x) in edges
  }

  /** Two nodes have the same root exactly when edges connect them. */
  ghost predicate Partitions(root: Roots, edges: set<(Node, Node)>) {
    forall x: Node, y: Node :: Agree(root, edges, x, y)
  }

  ghost predicate Agree(root: Roots, edges: set<(Node, Node)>, x: Node, y: Node) {
    && ((x, y) in edges ==> RootOf(root, x) == RootOf(root, y))
    && (RootOf(root, x) == RootOf(root, y) ==> Linked(Adjacency(edges), x, y))
  }

  /** The node reached by following `k` parent links. */
  function Follow(parent: Parents, n: Node, k: nat): Node
    decreases k
  {
    if k == 0 || IsRoot(parent, n) then n else Follow(parent, parent[n], k - 1)
  }

  /** Parent links never run in circles: from every node they end at its root. */
  lemma {:induction false} LinksEndAtRoot(parent: Parents, rank: map<Node, nat>, bound: nat, root: Roots, n: Node)
    returns (k: nat)
    requires Climbs(parent, rank, bound) && Represents(parent, root)
    ensures Follow(parent, n, k) == RootOf(root, n) && IsRoot(parent, RootOf(root, n))
    decreases bound - RankOf(rank, n)
  {
    assert LeadsTo(parent, root, n) && LeadsTo(parent, root, RootOf(root, n)) && Below(parent, rank, bound, n);
    if IsRoot(parent, n) {
      k := 0;
    } else {
      assert Below(parent, rank, bound, parent[n]);
      var more := LinksEndAtRoot(parent, rank, bound, root, parent[n]);
      k := more + 1;
    }
  }

  lemma SameRootIffLinked(root: Roots, edges: set<(Node, Node)>, x: Node, y: Node)
    requires Partitions(root, edges)
    ensures RootOf(root, x) == RootOf(root, y) <==> Linked(Adjacency(edges), x, y)
  {
    var r := Adjacency(edges);
    assert Agree(root, edges, x, y);
    if Linked(r, x, y) {
      var p :| IsPath(r, p, x, y);
      forall x: Node, y: Node | r(x, y)
        ensures RootOf(root, x) == RootOf(root, y)
      {
        assert Agree(root, edges, x, y) && Agree(root, edges, y, x);
      }
      PathKeeps(r, p, x, y, (n: Node) => RootOf(root, n));
    }
  }

  lemma AdjacencyIsSymmetric(edges: set<(Node, Node)>)
    ensures Symmetric(Adjacency(edges))
  {
  }

  lemma StillLinked(edges: set<(Node, Node)>, e: (Node, Node), x: Node, y: Node)
    requires Linked(Adjacency(edges), x, y)
    ensures Linked(Adjacency(edges + {e}), x, y)
  {
    assert Within(Adjacency(edges), Adjacency(edges + {e}));
    LinkedMono(Adjacency(edges), Adjacency(edges + {e}), x, y);
  }

  /** A new edge between `a` and `b` links whatever was linked to them. */
  lemma LinkedAcross(root: Roots, edges: set<(Node, Node)>, a: Node, b: Node, x: Node, y: Node)
    requires Partitions(root, edges) && RootOf(root, x) == RootOf(root, a) && RootOf(root, y) == RootOf(root, b)
    ensures Linked(Adjacency(edges + {(a, b)}), x, y) && Linked(Adjacency(edges + {(a, b)}), y, x)
  {
    var r := Adjacency(edges + {(a, b)});
    assert Agree(root, edges, x, a) && Agree(root, edges, b, y);
    StillLinked(edges, (a, b), x, a);
    StillLinked(edges, (a, b), b, y);
    LinkedByStep(r, a, b);
    LinkedTrans(r, x, a, b);
    LinkedTrans(r, x, b, y);
    AdjacencyIsSymmetric(edges + {(a, b)});
    LinkedSym(r, x, y);
  }

  /** Merging the classes of `a` and `b` is what the edge between them asks for. */
  ghost function Merged(root: Roots, ra: Node, rb: Node): Roots {
    map x: Node | x in root.Keys + {rb} :: if RootOf(root, x) == rb then ra else RootOf(root, x)
  }

  lemma MergePartitions(root: Roots, edges: set<(Node, Node)>, a: Node, b: Node)
    requires Partitions(root, edges)
    ensures Partitions(Merged(root, RootOf(root, a), RootOf(root, b)), edges + {(a, b)})
  {
    var root', edges' := Merged(root, RootOf(root, a), RootOf(root, b)), edges + {(a, b)};
    forall x: Node, y: Node
      ensures Agree(root', edges', x, y)
    {
      assert Agree(root, edges, x, y);
      MergeJoinsTwo(root, a, b, x, y);
      if RootOf(root, x) == RootOf(root, y) {
        StillLinked(edges, (a, b), x, y);
      } else if RootOf(root, x) == RootOf(root, b) && RootOf(root, y) == RootOf(root, a) {
        LinkedAcross(root, edges, a, b, y, x);
      } else if RootOf(root, x) == RootOf(root, a) && RootOf(root, y) == RootOf(root, b) {
        LinkedAcross(root, edges, a, b, x, y);
      }
    }
  }

  lemma LinkLeads(parent: Parents, root: Roots, ra: Node, rb: Node, n: Node)
    requires LeadsTo(parent, root, n) && RootOf(root, ra) == ra && RootOf(root, rb) == rb && ra != rb
    ensures LeadsTo(parent[rb := ra], Merged(root, ra, rb), n)
  {
    var root' := Merged(root, ra, rb);
    assert RootOf(root', ra) == ra && RootOf(root', n) == (if RootOf(root, n) == rb then ra else RootOf(root, n));
    if n in parent {
      assert RootOf(root', parent[n]) == RootOf(root', n);
    }
    assert RootOf(root', RootOf(root', n)) == RootOf(root', n);
  }

  lemma LinkBelow(parent: Parents, rank: map<Node, nat>, bound: nat, ra: Node, rb: Node, n: Node)
    requires Below(parent, rank, bound, n) && Below(parent, rank, bound, rb) && IsRoot(parent, ra) && ra != rb
    ensures Below(parent[rb := ra], rank[ra := bound + 1], bound + 1, n)
  {
  }

  /** Linking root `rb` below root `ra` keeps the forest and merges the two classes. */
  lemma LinkRepresents(parent: Parents, rank: map<Node, nat>, bound: nat, root: Roots, ra: Node, rb: Node)
    requires Climbs(parent, rank, bound) && Represents(parent, root) && RootOf(root, ra) == ra && RootOf(root, rb) == rb && ra != rb
    ensures Climbs(parent[rb := ra], rank[ra := bound + 1], bound + 1)
    ensures Represents(parent[rb := ra], Merged(root, ra, rb))
  {
    var root', parent' := Merged(root, ra, rb), parent[rb := ra];
    var rank', bound' := rank[ra := bound + 1], bound + 1;
    assert LeadsTo(parent, root, ra) && Below(parent, rank, bound, rb);
    forall n: Node
      ensures Below(parent', rank', bound', n)
    {
      assert Below(parent, rank, bound, n);
      LinkBelow(parent, rank, bound, ra, rb, n);
    }
    forall n: Node
      ensures LeadsTo(parent', root', n)
    {
      assert LeadsTo(parent, root, n);
      LinkLeads(parent, root, ra, rb, n);
    }
  }

  /** Pointing a node straight at its root changes no root. */
  lemma CompressKeeps(parent: Parents, rank: map<Node, nat>, bound: nat, root: Roots, n: Node)
    requires Climbs(parent, rank, bound) && Represents(parent, root) && RankOf(rank, n) < RankOf(rank, RootOf(root, n))
    ensures Climbs(parent[n := RootOf(root, n)], rank, bound) && Represents(parent[n := RootOf(root, n)], root)
  {
    assert LeadsTo(parent, root, n);
    var parent' := parent[n := RootOf(root, n)];
    forall x: Node
      ensures Below(parent', rank, bound, x) && LeadsTo(parent', root, x)
    {
      assert Below(parent, rank, bound, x) && LeadsTo(parent, root, x);
    }
  }

  /** `root` has the classes of `was`, with those of `a` and `b` made one. */
  ghost predicate Joins(was: Roots, root: Roots, a: Node, b: Node) {
    forall x: Node, y: Node :: JoinsTwo(was, root, a, b, x, y)
  }

  predicate JoinsTwo(was: Roots, root: Roots, a: Node, b: Node, x: Node, y: Node) {
    RootOf(root, x) == RootOf(root, y) <==> JoinedBy(RootOf(was, x), RootOf(was, y), RootOf(was, a), RootOf(was, b))
  }

  predicate JoinedBy(rx: Node, ry: Node, ra: Node, rb: Node) {
    rx == ry || (rx == ra && ry == rb) || (rx == rb && ry == ra)
  }

  lemma MergeJoinsTwo(root: Roots, a: Node, b: Node, x: Node, y: Node)
    ensures JoinsTwo(root, Merged(root, RootOf(root, a), RootOf(root, b)), a, b, x, y)
  {
  }

  lemma MergeJoins(root: Roots, a: Node, b: Node)
    ensures Joins(root, Merged(root, RootOf(root, a), RootOf(root, b)), a, b)
  {
    var root' := Merged(root, RootOf(root, a), RootOf(root, b));
    forall x: Node, y: Node
      ensures JoinsTwo(root, root', a, b, x, y)
    {
      MergeJoinsTwo(root, a, b, x, y);
    }
  }

  lemma MergeOfOne(parent: Parents, root: Roots, r: Node)
    requires Represents(parent, root)
    ensures Represents(parent, Merged(root, r, r))
  {
    var root' := Merged(root, r, r);
    forall n: Node
      ensures LeadsTo(parent, root', n)
    {
      assert LeadsTo(parent, root, n);
    }
  }

  lemma EmptyPartitions()
    ensures Partitions(map[], {})
  {
    var root: Roots, edges: set<(Node, Node)> := map[], {};
    forall x: Node, y: Node
      ensures Agree(root, edges, x, y)
    {
      LinkedToItself(Adjacency({}), x);
    }
  }

  class DisjointSets {
    var parent: Parents
    ghost var root: Roots
    ghost var rank: map<Node, nat>
    ghost var bound: nat
    ghost var edges: set<(Node, Node)>

    ghost predicate Valid()
      reads this
    {
      Climbs(parent, rank, bound) && Represents(parent, root) && Partitions(root, edges)
    }

    constructor ()
      ensures Valid() && parent == map[] && edges == {}
    {
      parent, rank, bound, edges, root := map[], map[], 0, {}, map[];
      new;
      EmptyPartitions();
    }

    /** Path compression shortens links; it terminates and changes no root. */
    method Find(n: Node) returns (r: Node)
      requires Valid()
      modifies this`parent
      ensures Valid() && r == RootOf(root, n)
      ensures RankOf(rank, n) <= RankOf(rank, r)
      decreases bound - RankOf(rank, n)
    {
      assert LeadsTo(parent, root, n) && Below(parent, rank, bound, n);
      if n !in parent || parent[n] == n {
        return n;
      }
      assert Below(parent, rank, bound, parent[n]);
      r := Find(parent[n]);
      CompressKeeps(parent, rank, bound, root, n);
      parent := parent[n := r];
    }

    /** Exactly the classes of `a` and `b` are merged. */
    method Union(a: Node, b: Node)
      requires Valid()
      modifies this
      ensures Valid() && edges == old(edges) + {(a, b)}
      ensures Joins(old(root), root, a, b)
    {
      var ra := Find(a);
      var rb := Find(b);
      assert LeadsTo(parent, root, a) && LeadsTo(parent, root, b);
      MergePartitions(root, edges, a, b);
      edges := edges + {(a, b)};
      MergeJoins(root, a, b);
      if ra != rb {
        LinkRepresents(parent, rank, bound, root, ra, rb);
        parent := parent[rb := ra];
        rank, bound := rank[ra := bound + 1], bound + 1;
      } else {
        MergeOfOne(parent, root, ra);
      }
      root := Merged(root, ra, rb);
    }
  }
}
