/**
 Independence clusters: which sources count as one.

 `ResolveIndependence` runs the disjoint-set forest over the graph of sources and
 attribute values and names each component after its least source. The order of
 source ids (`localeCompare`) enters as collation positions `key`.
 */
module Independence {
  import opened Wrappers
  import opened Lists
  import opened Paths
  import opened Sorting
  import opened UnionFind

  datatype SourceIdentity = SourceIdentity(sourceId: string, operatorId: Option<string>, upstreamOrigin: Option<string>,
                                           hostingAsn: Option<string>, declaredCluster: Option<string>)

  datatype Cluster = Declared(name: string) | Auto(leader: string)

  datatype SourceResolution = SourceResolution(sourceId: string, clusterId: Cluster, weight: real, verified: bool)

  const VERIFIED_WEIGHT := 1.0
  const UNVERIFIED_WEIGHT := 0.5

  type Key = map<string, int>

  // ---------------------------------------------------------------------------
  // What shared attributes mean
  // ---------------------------------------------------------------------------

  /** Both values are given, not empty and the same. */
  predicate SameValue(a: Option<string>, b: Option<string>) {
    a.Some? && a.value != "" && a == b
  }

  predicate Shares(s: SourceIdentity, t: SourceIdentity) {
    || s.sourceId == t.sourceId
    || SameValue(s.operatorId, t.operatorId)
    || SameValue(s.upstreamOrigin, t.upstreamOrigin)
    || SameValue(s.hostingAsn, t.hostingAsn)
  }

  /** A source whose cluster is inferred. */
  predicate Inferred(sources: seq<SourceIdentity>, s: SourceIdentity) {
    s in sources && s.declaredCluster.None?
  }

  ghost function Sharing(sources: seq<SourceIdentity>): (SourceIdentity, SourceIdentity) -> bool {
    (s: SourceIdentity, t: SourceIdentity) => Inferred(sources, s) && Inferred(sources, t) && Shares(s, t)
  }

  /** `m` is the least id among the sources that a chain of shared values links to `s`. */
  ghost predicate LeastOf(sources: seq<SourceIdentity>, key: Key, s: SourceIdentity, m: string) {
    && (exists t: SourceIdentity :: Inferred(sources, t) && t.sourceId == m && Linked(Sharing(sources), s, t))
    && (forall t: SourceIdentity :: Inferred(sources, t) && Linked(Sharing(sources), s, t) ==> NotAfter(key, m, t.sourceId))
  }

  predicate NotAfter(key: Key, a: string, b: string) {
    a in key && b in key && key[a] <= key[b]
  }

  ghost predicate Resolved(sources: seq<SourceIdentity>, key: Key, s: SourceIdentity, r: SourceResolution) {
    match s.declaredCluster
    case Some(name) => r == SourceResolution(s.sourceId, Declared(name), 1.0, true)
    case None =>
      && r.clusterId.Auto? && LeastOf(sources, key, s, r.clusterId.leader)
      && r == SourceResolution(s.sourceId, r.clusterId, 0.5, false)
  }

  /** Entries of one id declare the same cluster, or all none. */
  ghost predicate DeclareAlike(sources: seq<SourceIdentity>) {
    forall s: SourceIdentity, t: SourceIdentity :: s in sources && t in sources && s.sourceId == t.sourceId ==>
      s.declaredCluster == t.declaredCluster
  }

  /** Every id has a position of its own. */
  ghost predicate Collates(key: Key, sources: seq<SourceIdentity>) {
    && (forall s :: s in sources ==> s.sourceId in key)
    && (forall a, b :: a in key && b in key && key[a] == key[b] ==> a == b)
  }

  predicate Listed(sources: seq<SourceIdentity>, id: string) {
    exists i :: 0 <= i < |sources| && sources[i].sourceId == id
  }

  ghost predicate ResolvedIn(sources: seq<SourceIdentity>, key: Key, s: SourceIdentity, m: map<string, SourceResolution>) {
    s.sourceId in m && Resolved(sources, key, s, m[s.sourceId])
  }

  ghost predicate IsResolution(sources: seq<SourceIdentity>, key: Key, m: map<string, SourceResolution>) {
    && (forall id: string :: id in m <==> Listed(sources, id))
    && (forall s: SourceIdentity {:trigger ResolvedIn(sources, key, s, m)} :: s in sources ==> ResolvedIn(sources, key, s, m))
  }

  lemma SharingIsSymmetric(sources: seq<SourceIdentity>)
    ensures Symmetric(Sharing(sources))
  {
  }

  lemma SharedLeast(sources: seq<SourceIdentity>, key: Key, s: SourceIdentity, t: SourceIdentity, m: string)
    requires Linked(Sharing(sources), s, t) && LeastOf(sources, key, t, m)
    ensures LeastOf(sources, key, s, m)
  {
    var r := Sharing(sources);
    SharingIsSymmetric(sources);
    LinkedSym(r, s, t);
    var u: SourceIdentity :| Inferred(sources, u) && u.sourceId == m && Linked(r, t, u);
    LinkedTrans(r, s, t, u);
    forall v: SourceIdentity | Inferred(sources, v) && Linked(r, s, v)
      ensures NotAfter(key, m, v.sourceId)
    {
      LinkedTrans(r, t, s, v);
    }
  }

  lemma LeastIsUnique(sources: seq<SourceIdentity>, key: Key, s: SourceIdentity, m: string, n: string)
    requires Collates(key, sources) && LeastOf(sources, key, s, m) && LeastOf(sources, key, s, n)
    ensures m == n
  {
    var t: SourceIdentity :| Inferred(sources, t) && t.sourceId == m && Linked(Sharing(sources), s, t);
    var u: SourceIdentity :| Inferred(sources, u) && u.sourceId == n && Linked(Sharing(sources), s, u);
    assert NotAfter(key, m, u.sourceId) && NotAfter(key, n, t.sourceId);
  }

  /** Two undeclared sources are in one cluster exactly when a chain of shared operator,
      origin or network values among undeclared sources connects them. */
  lemma SameClusterIffLinked(sources: seq<SourceIdentity>, key: Key, m: map<string, SourceResolution>,
                             s: SourceIdentity, t: SourceIdentity)
    requires Collates(key, sources) && IsResolution(sources, key, m)
    requires Inferred(sources, s) && Inferred(sources, t)
    ensures s.sourceId in m && t.sourceId in m
    ensures m[s.sourceId].clusterId == m[t.sourceId].clusterId <==> Linked(Sharing(sources), s, t)
  {
    assert ResolvedIn(sources, key, s, m) && ResolvedIn(sources, key, t, m);
    var a, b := m[s.sourceId].clusterId.leader, m[t.sourceId].clusterId.leader;
    if Linked(Sharing(sources), s, t) {
      SharedLeast(sources, key, s, t, b);
      LeastIsUnique(sources, key, s, a, b);
    } else if a == b {
      LeastLinks(sources, key, s, t, a);
    }
  }

  lemma LeastLinks(sources: seq<SourceIdentity>, key: Key, s: SourceIdentity, t: SourceIdentity, m: string)
    requires LeastOf(sources, key, s, m) && LeastOf(sources, key, t, m)
    ensures Linked(Sharing(sources), s, t)
  {
    var r := Sharing(sources);
    var u: SourceIdentity :| Inferred(sources, u) && u.sourceId == m && Linked(r, s, u);
    var v: SourceIdentity :| Inferred(sources, v) && v.sourceId == m && Linked(r, t, v);
    LinkedByStep(r, u, v);
    LinkedTrans(r, s, u, v);
    SharingIsSymmetric(sources);
    LinkedSym(r, t, v);
    LinkedTrans(r, s, v, t);
  }

  ghost predicate SameSources(a: seq<SourceIdentity>, b: seq<SourceIdentity>) {
    forall s: SourceIdentity :: s in a <==> s in b
  }

  lemma SharingWithin(a: seq<SourceIdentity>, b: seq<SourceIdentity>)
    requires SameSources(a, b)
    ensures Within(Sharing(a), Sharing(b))
  {
    forall s: SourceIdentity, t: SourceIdentity | Sharing(a)(s, t)
      ensures Sharing(b)(s, t)
    {
      assert Inferred(a, s) && Inferred(a, t) && Shares(s, t);
      assert Inferred(b, s) && Inferred(b, t);
    }
  }

  lemma SameMembersSameLeast(a: seq<SourceIdentity>, b: seq<SourceIdentity>, key: Key, s: SourceIdentity, m: string)
    requires SameSources(a, b) && LeastOf(a, key, s, m)
    ensures LeastOf(b, key, s, m)
  {
    SharingWithin(a, b);
    SharingWithin(b, a);
    var t: SourceIdentity :| Inferred(a, t) && t.sourceId == m && Linked(Sharing(a), s, t);
    LinkedMono(Sharing(a), Sharing(b), s, t);
    assert Inferred(b, t);
    forall u: SourceIdentity | Inferred(b, u) && Linked(Sharing(b), s, u)
      ensures NotAfter(key, m, u.sourceId)
    {
      LinkedMono(Sharing(b), Sharing(a), s, u);
      assert Inferred(a, u);
    }
  }

  lemma SameResolution(a: seq<SourceIdentity>, b: seq<SourceIdentity>, key: Key, s: SourceIdentity,
                       m: SourceResolution, n: SourceResolution)
    requires SameSources(a, b) && Collates(key, a) && Resolved(a, key, s, m) && Resolved(b, key, s, n)
    ensures m == n
  {
    if s.declaredCluster.None? {
      SameMembersSameLeast(b, a, key, s, n.clusterId.leader);
      LeastIsUnique(a, key, s, m.clusterId.leader, n.clusterId.leader);
    }
  }

  /** Entries of one id are resolved alike if they declare alike. */
  lemma SameIdResolved(sources: seq<SourceIdentity>, key: Key, s: SourceIdentity, t: SourceIdentity, r: SourceResolution)
    requires s in sources && t in sources && s.sourceId == t.sourceId && s.declaredCluster == t.declaredCluster
    requires Resolved(sources, key, t, r)
    ensures Resolved(sources, key, s, r)
  {
    if s.declaredCluster.None? {
      LinkedByStep(Sharing(sources), s, t);
      SharedLeast(sources, key, s, t, r.clusterId.leader);
    }
  }

  /** The entries of an id, in order. */
  function Entries(sources: seq<SourceIdentity>, id: string): seq<SourceIdentity> {
    Filter(WithId(id), sources)
  }

  function WithId(id: string): SourceIdentity -> bool {
    (s: SourceIdentity) => s.sourceId == id
  }

  lemma EntriesAre(sources: seq<SourceIdentity>, id: string)
    ensures forall s: SourceIdentity :: s in Entries(sources, id) <==> s in sources && s.sourceId == id
  {
    FilterMembers(WithId(id), sources);
  }

  /** The last entry of `id` in `list` is resolved in `m`; an id without entries is not. */
  ghost predicate LastResolved(sources: seq<SourceIdentity>, key: Key, list: seq<SourceIdentity>, id: string,
                               m: map<string, SourceResolution>)
  {
    var es := Entries(list, id);
    (id in m <==> es != []) && (id in m ==> Resolved(sources, key, es[|es| - 1], m[id]))
  }

  ghost predicate ResolvesLast(sources: seq<SourceIdentity>, key: Key, m: map<string, SourceResolution>) {
    forall id: string :: LastResolved(sources, key, sources, id, m)
  }

  /** The last entry of an id, which decides its resolution. */
  lemma Deciding(sources: seq<SourceIdentity>, key: Key, id: string, m: map<string, SourceResolution>) returns (s: SourceIdentity)
    requires ResolvesLast(sources, key, m) && id in m
    ensures s in sources && s.sourceId == id && Resolved(sources, key, s, m[id])
    ensures Entries(sources, id) != [] && s == Entries(sources, id)[|Entries(sources, id)| - 1]
  {
    assert LastResolved(sources, key, sources, id, m);
    var es := Entries(sources, id);
    EntriesAre(sources, id);
    s := es[|es| - 1];
    assert s in es;
  }

  lemma SourceIsResolved(sources: seq<SourceIdentity>, key: Key, s: SourceIdentity, m: map<string, SourceResolution>)
    requires ResolvesLast(sources, key, m) && s in sources
    ensures s.sourceId in m
  {
    EntriesAre(sources, s.sourceId);
    assert s in Entries(sources, s.sourceId);
    assert LastResolved(sources, key, sources, s.sourceId, m);
  }

  /** Every source is resolved as its own entry says, exactly if entries of one id declare alike. */
  lemma ResolutionIff(sources: seq<SourceIdentity>, key: Key, m: map<string, SourceResolution>)
    requires ResolvesLast(sources, key, m)
    ensures IsResolution(sources, key, m) <==> DeclareAlike(sources)
  {
    forall id: string
      ensures id in m <==> Listed(sources, id)
    {
      assert LastResolved(sources, key, sources, id, m);
      ListedIffEntries(sources, id);
    }
    if DeclareAlike(sources) {
      forall s: SourceIdentity | s in sources
        ensures ResolvedIn(sources, key, s, m)
      {
        SourceIsResolved(sources, key, s, m);
        var t := Deciding(sources, key, s.sourceId, m);
        SameIdResolved(sources, key, s, t, m[s.sourceId]);
      }
    }
    if IsResolution(sources, key, m) {
      forall s: SourceIdentity, t: SourceIdentity | s in sources && t in sources && s.sourceId == t.sourceId
        ensures s.declaredCluster == t.declaredCluster
      {
        assert ResolvedIn(sources, key, s, m) && ResolvedIn(sources, key, t, m);
      }
    }
  }

  lemma ListedIffEntries(sources: seq<SourceIdentity>, id: string)
    ensures Listed(sources, id) <==> Entries(sources, id) != []
  {
    EntriesAre(sources, id);
    var es := Entries(sources, id);
    if Listed(sources, id) {
      var i :| 0 <= i < |sources| && sources[i].sourceId == id;
      assert sources[i] in sources && sources[i] in es;
    }
    if es != [] {
      assert es[0] in es;
      var i :| 0 <= i < |sources| && sources[i] == es[0];
    }
  }

  /** When entries of one id declare alike, the resolution does not depend on the order in
      which the sources are listed. */
  lemma OrderIndependent(a: seq<SourceIdentity>, b: seq<SourceIdentity>, key: Key,
                         m: map<string, SourceResolution>, n: map<string, SourceResolution>)
    requires multiset(a) == multiset(b) && Collates(key, a) && DeclareAlike(a)
    requires ResolvesLast(a, key, m) && ResolvesLast(b, key, n)
    ensures m == n
  {
    SameMembers(a, b);
    forall id: string
      ensures id in m <==> id in n
      ensures id in m ==> m[id] == n[id]
    {
      if id in m {
        var s := Deciding(a, key, id, m);
        SourceIsResolved(b, key, s, n);
        var t := Deciding(b, key, id, n);
        SameIdResolved(b, key, s, t, n[id]);
        SameResolution(a, b, key, s, m[id], n[id]);
      } else if id in n {
        var t := Deciding(b, key, id, n);
        SourceIsResolved(a, key, t, m);
      }
    }
  }

  function MovedLast(a: seq<SourceIdentity>, i: nat): seq<SourceIdentity>
    requires i < |a|
  {
    a[..i] + a[i + 1..] + [a[i]]
  }

  lemma MovedLastDecides(a: seq<SourceIdentity>, key: Key, i: nat, m: map<string, SourceResolution>)
    requires i < |a| && ResolvesLast(MovedLast(a, i), key, m)
    ensures multiset(MovedLast(a, i)) == multiset(a)
    ensures a[i].sourceId in m && Resolved(MovedLast(a, i), key, a[i], m[a[i].sourceId])
  {
    var b, id := MovedLast(a, i), a[i].sourceId;
    assert a == a[..i] + ([a[i]] + a[i + 1..]);
    FilterLast(WithId(id), a[..i] + a[i + 1..], a[i]);
    assert LastResolved(b, key, b, id, m);
  }

  /** Otherwise it does: moving one or the other of two entries of an id to the end gives
      the id another resolution. */
  lemma OrderMatters(a: seq<SourceIdentity>, key: Key, i: nat, j: nat,
                     m: map<string, SourceResolution>, n: map<string, SourceResolution>)
    requires i < |a| && j < |a| && a[i].sourceId == a[j].sourceId && a[i].declaredCluster != a[j].declaredCluster
    requires ResolvesLast(MovedLast(a, i), key, m) && ResolvesLast(MovedLast(a, j), key, n)
    ensures multiset(MovedLast(a, i)) == multiset(a) == multiset(MovedLast(a, j)) && m != n
  {
    MovedLastDecides(a, key, i, m);
    MovedLastDecides(a, key, j, n);
  }

  // ---------------------------------------------------------------------------
  // What the graph means
  // ---------------------------------------------------------------------------

  function Given(value: Option<string>): bool {
    value.Some? && value.value != ""
  }

  function Attributes(s: SourceIdentity): seq<Node> {
    (if Given(s.operatorId) then [Operator(s.operatorId.value)] else [])
    + (if Given(s.upstreamOrigin) then [Origin(s.upstreamOrigin.value)] else [])
    + (if Given(s.hostingAsn) then [Asn(s.hostingAsn.value)] else [])
  }

  /** Node `n` belongs to source `s`: its own node or one of its attributes. */
  predicate NodeOf(s: SourceIdentity, n: Node) {
    n == Source(s.sourceId) || n in Attributes(s)
  }

  lemma CommonNode(s: SourceIdentity, t: SourceIdentity)
    ensures (exists n: Node :: NodeOf(s, n) && NodeOf(t, n)) <==> Shares(s, t)
  {
    if Shares(s, t) {
      var n :=
        if s.sourceId == t.sourceId then Source(s.sourceId)
        else if SameValue(s.operatorId, t.operatorId) then Operator(s.operatorId.value)
        else if SameValue(s.upstreamOrigin, t.upstreamOrigin) then Origin(s.upstreamOrigin.value)
        else Asn(s.hostingAsn.value);
      assert NodeOf(s, n) && NodeOf(t, n);
    }
  }

  /** The edge joins a source and an attribute of it. */
  predicate EdgeOf(s: SourceIdentity, e: (Node, Node)) {
    e.0 == Source(s.sourceId) && e.1 in Attributes(s)
  }

  /** The edges are those of the inferred sources. */
  ghost predicate EdgesOf(edges: set<(Node, Node)>, sources: seq<SourceIdentity>) {
    && (forall e: (Node, Node) :: e in edges ==> exists s: SourceIdentity :: Inferred(sources, s) && EdgeOf(s, e))
    && (forall s: SourceIdentity, e: (Node, Node) :: Inferred(sources, s) && EdgeOf(s, e) ==> e in edges)
  }

  /** A source linked to `s` owns node `n`. */
  ghost predicate Reaches(sources: seq<SourceIdentity>, s: SourceIdentity, n: Node) {
    exists t: SourceIdentity :: Inferred(sources, t) && NodeOf(t, n) && Linked(Sharing(sources), s, t)
  }

  lemma StepReaches(edges: set<(Node, Node)>, sources: seq<SourceIdentity>, s: SourceIdentity, x: Node, y: Node)
    requires EdgesOf(edges, sources) && Adjacency(edges)(x, y) && Reaches(sources, s, x)
    ensures Reaches(sources, s, y)
  {
    var r := Sharing(sources);
    var t: SourceIdentity :| Inferred(sources, t) && NodeOf(t, x) && Linked(r, s, t);
    var e := if (x, y) in edges then (x, y) else (y, x);
    var u: SourceIdentity :| Inferred(sources, u) && EdgeOf(u, e);
    CommonNode(t, u);
    LinkedByStep(r, t, u);
    LinkedTrans(r, s, t, u);
  }

  lemma {:induction false} PathReaches(edges: set<(Node, Node)>, sources: seq<SourceIdentity>, s: SourceIdentity,
                                       p: seq<Node>, n: Node)
    requires EdgesOf(edges, sources) && Inferred(sources, s) && IsPath(Adjacency(edges), p, Source(s.sourceId), n)
    ensures Reaches(sources, s, n)
    decreases |p|
  {
    if |p| == 1 {
      LinkedToItself(Sharing(sources), s);
    } else {
      var q, last := p[..|p| - 1], p[|p| - 2];
      assert IsPath(Adjacency(edges), q, Source(s.sourceId), last);
      PathReaches(edges, sources, s, q, last);
      assert Adjacency(edges)(last, p[|p| - 2 + 1]);
      StepReaches(edges, sources, s, last, n);
    }
  }

  lemma SharingKeepsRoot(root: Roots, edges: set<(Node, Node)>, sources: seq<SourceIdentity>,
                         s: SourceIdentity, t: SourceIdentity)
    requires EdgesOf(edges, sources) && Partitions(root, edges) && Sharing(sources)(s, t)
    ensures RootOf(root, Source(s.sourceId)) == RootOf(root, Source(t.sourceId))
  {
    CommonNode(s, t);
    var n: Node :| NodeOf(s, n) && NodeOf(t, n);
    if n != Source(s.sourceId) {
      assert EdgeOf(s, (Source(s.sourceId), n)) && Agree(root, edges, Source(s.sourceId), n);
    }
    if n != Source(t.sourceId) {
      assert EdgeOf(t, (Source(t.sourceId), n)) && Agree(root, edges, Source(t.sourceId), n);
    }
  }

  /** Two inferred sources have one root in the forest exactly when shared values link them. */
  lemma SameRootIffSharing(root: Roots, edges: set<(Node, Node)>, sources: seq<SourceIdentity>,
                           s: SourceIdentity, t: SourceIdentity)
    requires EdgesOf(edges, sources) && Partitions(root, edges) && Inferred(sources, s) && Inferred(sources, t)
    ensures RootOf(root, Source(s.sourceId)) == RootOf(root, Source(t.sourceId)) <==> Linked(Sharing(sources), s, t)
  {
    var r := Sharing(sources);
    SameRootIffLinked(root, edges, Source(s.sourceId), Source(t.sourceId));
    if Linked(Adjacency(edges), Source(s.sourceId), Source(t.sourceId)) {
      var p :| IsPath(Adjacency(edges), p, Source(s.sourceId), Source(t.sourceId));
      PathReaches(edges, sources, s, p, Source(t.sourceId));
      var u: SourceIdentity :| Inferred(sources, u) && NodeOf(u, Source(t.sourceId)) && Linked(r, s, u);
      LinkedByStep(r, u, t);
      LinkedTrans(r, s, u, t);
    }
    if Linked(r, s, t) {
      var p :| IsPath(r, p, s, t);
      forall x: SourceIdentity, y: SourceIdentity | r(x, y)
        ensures RootOf(root, Source(x.sourceId)) == RootOf(root, Source(y.sourceId))
      {
        SharingKeepsRoot(root, edges, sources, x, y);
      }
      PathKeeps(r, p, s, t, (x: SourceIdentity) => RootOf(root, Source(x.sourceId)));
    }
  }

  // ---------------------------------------------------------------------------
  // The resolution
  // ---------------------------------------------------------------------------

  function ById(key: Key): (SourceIdentity, SourceIdentity) -> bool {
    (s: SourceIdentity, t: SourceIdentity) =>
      (if s.sourceId in key then key[s.sourceId] else 0) <= (if t.sourceId in key then key[t.sourceId] else 0)
  }

  ghost predicate InOrder(key: Key, s: seq<SourceIdentity>) {
    forall i, j :: 0 <= i < j < |s| ==> NotAfter(key, s[i].sourceId, s[j].sourceId)
  }

  lemma SortsById(key: Key, sources: seq<SourceIdentity>)
    requires Collates(key, sources)
    ensures var sorted := Sort(ById(key), sources); InOrder(key, sorted) && SameSources(sorted, sources)
    ensures forall id: string :: Entries(Sort(ById(key), sources), id) == Entries(sources, id)
  {
    var sorted := Sort(ById(key), sources);
    SortAscends(ById(key), sources);
    SortPermutes(ById(key), sources);
    SameMembers(sorted, sources);
    forall i, j | 0 <= i < j < |sorted|
      ensures NotAfter(key, sorted[i].sourceId, sorted[j].sourceId)
    {
      assert ById(key)(sorted[i], sorted[j]);
      assert sorted[i] in sorted && sorted[j] in sorted;
    }
    forall id: string
      ensures Entries(sorted, id) == Entries(sources, id)
    {
      SortIsStable(ById(key), WithId(id), sources);
    }
  }

  function Undeclared(): SourceIdentity -> bool {
    (s: SourceIdentity) => s.declaredCluster.None?
  }

  lemma {:induction false} FilterInOrder(key: Key, p: SourceIdentity -> bool, s: seq<SourceIdentity>)
    requires InOrder(key, s)
    ensures InOrder(key, Filter(p, s))
  {
    if s != [] {
      var rest := Filter(p, s[1..]);
      FilterInOrder(key, p, s[1..]);
      FilterMembers(p, s[1..]);
      forall j | 0 <= j < |rest|
        ensures NotAfter(key, s[0].sourceId, rest[j].sourceId)
      {
        assert rest[j] in rest;
        var i :| 0 <= i < |s[1..]| && s[1..][i] == rest[j];
        assert s[i + 1] == rest[j];
      }
    }
  }

  /** `auto` names, for each root among the first `k` sources, the least of them. */
  ghost predicate NamesLeast(root: Roots, auto: map<Node, string>, key: Key, s: seq<SourceIdentity>, k: nat)
    requires k <= |s|
  {
    && (forall i :: 0 <= i < k ==> RootOf(root, Source(s[i].sourceId)) in auto)
    && (forall r: Node :: r in auto ==> NamesLeastOf(root, auto[r], r, key, s, k))
  }

  ghost predicate NamesLeastOf(root: Roots, m: string, r: Node, key: Key, s: seq<SourceIdentity>, k: nat)
    requires k <= |s|
  {
    && (exists i :: 0 <= i < k && s[i].sourceId == m && RootOf(root, Source(m)) == r)
    && (forall i :: 0 <= i < k && RootOf(root, Source(s[i].sourceId)) == r ==> NotAfter(key, m, s[i].sourceId))
  }

  lemma LeastByRoot(root: Roots, edges: set<(Node, Node)>, auto: map<Node, string>, key: Key,
                    sources: seq<SourceIdentity>, inferred: seq<SourceIdentity>, s: SourceIdentity)
    requires EdgesOf(edges, sources) && Partitions(root, edges) && Inferred(sources, s)
    requires forall x: SourceIdentity :: x in inferred <==> Inferred(sources, x)
    requires NamesLeast(root, auto, key, inferred, |inferred|)
    ensures RootOf(root, Source(s.sourceId)) in auto
    ensures LeastOf(sources, key, s, auto[RootOf(root, Source(s.sourceId))])
  {
    var r := RootOf(root, Source(s.sourceId));
    assert s in inferred;
    var m := auto[r];
    assert NamesLeastOf(root, m, r, key, inferred, |inferred|);
    var i :| 0 <= i < |inferred| && inferred[i].sourceId == m && RootOf(root, Source(m)) == r;
    assert inferred[i] in inferred;
    SameRootIffSharing(root, edges, sources, s, inferred[i]);
    forall t: SourceIdentity | Inferred(sources, t) && Linked(Sharing(sources), s, t)
      ensures NotAfter(key, m, t.sourceId)
    {
      SameRootIffSharing(root, edges, sources, s, t);
      assert t in inferred;
    }
  }

  lemma EdgesOfNext(edges: set<(Node, Node)>, s: seq<SourceIdentity>, k: nat, all: set<(Node, Node)>)
    requires k < |s| && s[k].declaredCluster.None? && EdgesOf(edges, s[..k])
    requires forall e: (Node, Node) :: e in all <==> e in edges || EdgeOf(s[k], e)
    ensures EdgesOf(all, s[..k + 1])
  {
    assert s[..k + 1] == s[..k] + [s[k]];
    assert Inferred(s[..k + 1], s[k]);
    forall e: (Node, Node) | e in all
      ensures exists x: SourceIdentity :: Inferred(s[..k + 1], x) && EdgeOf(x, e)
    {
      if e in edges {
        var x: SourceIdentity :| Inferred(s[..k], x) && EdgeOf(x, e);
        assert Inferred(s[..k + 1], x);
      }
    }
    forall x: SourceIdentity, e: (Node, Node) | Inferred(s[..k + 1], x) && EdgeOf(x, e)
      ensures e in all
    {
      assert x == s[k] || Inferred(s[..k], x);
    }
  }

  lemma EdgesOfMembers(edges: set<(Node, Node)>, inferred: seq<SourceIdentity>, sources: seq<SourceIdentity>)
    requires EdgesOf(edges, inferred) && forall x: SourceIdentity :: x in inferred <==> Inferred(sources, x)
    ensures EdgesOf(edges, sources)
  {
    forall e: (Node, Node) | e in edges
      ensures exists s: SourceIdentity :: Inferred(sources, s) && EdgeOf(s, e)
    {
      var s: SourceIdentity :| Inferred(inferred, s) && EdgeOf(s, e);
      assert Inferred(sources, s);
    }
    forall s: SourceIdentity, e: (Node, Node) | Inferred(sources, s) && EdgeOf(s, e)
      ensures e in edges
    {
      assert Inferred(inferred, s);
    }
  }

  /** Joins each source to its attributes. */
  method UnionAttributes(sets: DisjointSets, s: SourceIdentity)
    requires sets.Valid()
    modifies sets
    ensures sets.Valid()
    ensures forall e: (Node, Node) :: e in sets.edges <==> e in old(sets.edges) || EdgeOf(s, e)
  {
    var attributes := Attributes(s);
    for j := 0 to |attributes|
      invariant sets.Valid()
      invariant forall e: (Node, Node) :: e in sets.edges <==>
                  e in old(sets.edges) || (e.0 == Source(s.sourceId) && e.1 in attributes[..j])
    {
      sets.Union(Source(s.sourceId), attributes[j]);
      assert attributes[..j + 1] == attributes[..j] + [attributes[j]];
    }
    assert attributes[..|attributes|] == attributes;
  }

  method NameComponents(sets: DisjointSets, key: Key, inferred: seq<SourceIdentity>) returns (auto: map<Node, string>)
    requires sets.Valid() && InOrder(key, inferred) && forall s :: s in inferred ==> s.sourceId in key
    modifies sets`parent
    ensures sets.Valid() && NamesLeast(sets.root, auto, key, inferred, |inferred|)
  {
    auto := map[];
    for k := 0 to |inferred|
      invariant sets.Valid() && NamesLeast(sets.root, auto, key, inferred, k)
    {
      var id := inferred[k].sourceId;
      var root := sets.Find(Source(id));
      NameNext(sets.root, auto, key, inferred, k);
      if root !in auto {
        auto := auto[root := id];
      }
    }
  }

  lemma NameNext(root: Roots, auto: map<Node, string>, key: Key, s: seq<SourceIdentity>, k: nat)
    requires k < |s| && NamesLeast(root, auto, key, s, k) && InOrder(key, s) && s[k].sourceId in key
    ensures var r := RootOf(root, Source(s[k].sourceId));
      NamesLeast(root, if r in auto then auto else auto[r := s[k].sourceId], key, s, k + 1)
  {
    var r := RootOf(root, Source(s[k].sourceId));
    var auto' := if r in auto then auto else auto[r := s[k].sourceId];
    forall q: Node | q in auto'
      ensures NamesLeastOf(root, auto'[q], q, key, s, k + 1)
    {
      if q in auto {
        assert NamesLeastOf(root, auto[q], q, key, s, k);
        var i :| 0 <= i < k && s[i].sourceId == auto[q] && RootOf(root, Source(auto[q])) == q;
      }
    }
  }

  /** Joins every inferred source to its attributes, on a fresh forest. */
  method JoinSources(inferred: seq<SourceIdentity>) returns (sets: DisjointSets)
    requires forall s: SourceIdentity :: s in inferred ==> s.declaredCluster.None?
    ensures fresh(sets) && sets.Valid() && EdgesOf(sets.edges, inferred)
  {
    sets := new DisjointSets();
    for k := 0 to |inferred|
      invariant sets.Valid() && EdgesOf(sets.edges, inferred[..k])
      invariant fresh(sets)
    {
      ghost var edges := sets.edges;
      assert inferred[k] in inferred;
      UnionAttributes(sets, inferred[k]);
      EdgesOfNext(edges, inferred, k, sets.edges);
    }
    assert inferred[..|inferred|] == inferred;
  }

  /** The components of the forest are those of `sources`, named by `auto`. */
  ghost predicate Named(sets: DisjointSets, auto: map<Node, string>, key: Key, sources: seq<SourceIdentity>,
                        inferred: seq<SourceIdentity>)
    reads sets
  {
    && sets.Valid() && EdgesOf(sets.edges, sources)
    && (forall x: SourceIdentity :: x in inferred <==> Inferred(sources, x))
    && NamesLeast(sets.root, auto, key, inferred, |inferred|)
  }

  method ResolveSource(sets: DisjointSets, auto: map<Node, string>, key: Key, s: SourceIdentity,
                       ghost sources: seq<SourceIdentity>, ghost inferred: seq<SourceIdentity>)
    returns (r: SourceResolution)
    requires Named(sets, auto, key, sources, inferred) && s in sources
    modifies sets`parent
    ensures Named(sets, auto, key, sources, inferred) && Resolved(sources, key, s, r)
  {
    if s.declaredCluster.Some? {
      r := SourceResolution(s.sourceId, Declared(s.declaredCluster.value), VERIFIED_WEIGHT, true);
    } else {
      var root := sets.Find(Source(s.sourceId));
      LeastByRoot(sets.root, sets.edges, auto, key, sources, inferred, s);
      r := SourceResolution(s.sourceId, Auto(auto[root]), UNVERIFIED_WEIGHT, false);
    }
  }

  /** The last entries among the first `k` sources are resolved in `m`. */
  ghost predicate ResolvedSoFar(sources: seq<SourceIdentity>, key: Key, sorted: seq<SourceIdentity>, k: nat,
                                m: map<string, SourceResolution>)
    requires k <= |sorted|
  {
    forall id: string :: LastResolved(sources, key, sorted[..k], id, m)
  }

  lemma ResolvedNext(sources: seq<SourceIdentity>, key: Key, sorted: seq<SourceIdentity>, k: nat,
                     m: map<string, SourceResolution>, r: SourceResolution)
    requires k < |sorted| && ResolvedSoFar(sources, key, sorted, k, m) && Resolved(sources, key, sorted[k], r)
    ensures ResolvedSoFar(sources, key, sorted, k + 1, m[sorted[k].sourceId := r])
  {
    var m' := m[sorted[k].sourceId := r];
    var more := sorted[..k + 1];
    assert more == sorted[..k] + [sorted[k]];
    forall id: string
      ensures LastResolved(sources, key, more, id, m')
    {
      assert LastResolved(sources, key, sorted[..k], id, m);
      FilterLast(WithId(id), sorted[..k], sorted[k]);
    }
  }

  lemma AllResolved(sources: seq<SourceIdentity>, key: Key, sorted: seq<SourceIdentity>, m: map<string, SourceResolution>)
    requires ResolvedSoFar(sources, key, sorted, |sorted|, m)
    requires forall id: string :: Entries(sorted, id) == Entries(sources, id)
    ensures ResolvesLast(sources, key, m)
  {
    assert sorted[..|sorted|] == sorted;
    forall id: string
      ensures LastResolved(sources, key, sources, id, m)
    {
      assert LastResolved(sources, key, sorted[..|sorted|], id, m);
      assert Entries(sorted, id) == Entries(sources, id);
    }
  }

  method ResolveAll(sets: DisjointSets, auto: map<Node, string>, key: Key, sorted: seq<SourceIdentity>,
                    ghost sources: seq<SourceIdentity>, ghost inferred: seq<SourceIdentity>)
    returns (resolutions: map<string, SourceResolution>)
    requires Named(sets, auto, key, sources, inferred) && SameSources(sorted, sources)
    modifies sets`parent
    ensures ResolvedSoFar(sources, key, sorted, |sorted|, resolutions)
  {
    resolutions := map[];
    for k := 0 to |sorted|
      invariant Named(sets, auto, key, sources, inferred)
      invariant ResolvedSoFar(sources, key, sorted, k, resolutions)
    {
      var s := sorted[k];
      assert s in sorted && s in sources;
      var r := ResolveSource(sets, auto, key, s, sources, inferred);
      ResolvedNext(sources, key, sorted, k, resolutions, r);
      resolutions := resolutions[s.sourceId := r];
    }
  }

  /** Resolves every source to its cluster: the last entry of each id decides. A declared
      one keeps its cluster with full weight; any other is in the cluster named after the
      least source a chain of shared values links it to. */
  method ResolveIndependence(sources: seq<SourceIdentity>, key: Key) returns (resolutions: map<string, SourceResolution>)
    requires Collates(key, sources)
    ensures ResolvesLast(sources, key, resolutions)
    ensures IsResolution(sources, key, resolutions) <==> DeclareAlike(sources)
  {
    SortsById(key, sources);
    var sorted := Sort(ById(key), sources);
    var inferred := Filter(Undeclared(), sorted);
    InferredAre(key, sources, sorted);
    var sets := JoinSources(inferred);
    EdgesOfMembers(sets.edges, inferred, sources);
    var auto := NameComponents(sets, key, inferred);
    resolutions := ResolveAll(sets, auto, key, sorted, sources, inferred);
    AllResolved(sources, key, sorted, resolutions);
    ResolutionIff(sources, key, resolutions);
  }

  lemma InferredAre(key: Key, sources: seq<SourceIdentity>, sorted: seq<SourceIdentity>)
    requires Collates(key, sources) && InOrder(key, sorted) && SameSources(sorted, sources)
    ensures var inferred := Filter(Undeclared(), sorted);
      && InOrder(key, inferred) && (forall x: SourceIdentity :: x in inferred <==> Inferred(sources, x))
      && (forall x: SourceIdentity :: x in inferred ==> x.sourceId in key)
  {
    FilterInOrder(key, Undeclared(), sorted);
    FilterMembers(Undeclared(), sorted);
  }
}
