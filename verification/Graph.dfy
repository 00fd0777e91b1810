/** The reference graph: forward edges, the reverse index, and the closure from a list of roots. */
module Graph {
  import opened Artifacts

  type Index = map<Digest, seq<Digest>>

  datatype Graph = Graph(edges: Index, reverse: Index)

  /** Reading a Go map: a missing key is an empty slice. */
  function At(index: Index, d: Digest): seq<Digest> {
    if d in index then index[d] else []
  }

  function Without(list: seq<Digest>, d: Digest): seq<Digest> {
    if list == [] then []
    else if list[0] == d then Without(list[1..], d)
    else [list[0]] + Without(list[1..], d)
  }

  function Copies(d: Digest, n: nat): seq<Digest> {
    seq(n, _ => d)
  }

  /** The reverse index after `d` was appended under each of `refs`, in order. */
  function Indexed(reverse: Index, refs: seq<Digest>, d: Digest): Index {
    if refs == [] then reverse
    else
      var front, last := refs[..|refs| - 1], refs[|refs| - 1];
      var r := Indexed(reverse, front, d);
      r[last := At(r, last) + [d]]
  }

  /** The reverse index after `d` was filtered out under each of `refs`. */
  function Unindexed(reverse: Index, refs: seq<Digest>, d: Digest): Index {
    if refs == [] then reverse
    else
      var front, last := refs[..|refs| - 1], refs[|refs| - 1];
      var r := Unindexed(reverse, front, d);
      r[last := Without(At(r, last), d)]
  }

  function Added(g: Graph, d: Digest, refs: seq<Digest>): Graph {
    Graph(g.edges[d := refs], Indexed(g.reverse, refs, d))
  }

  function Removed(g: Graph, d: Digest): Graph {
    Graph(g.edges - {d}, Unindexed(g.reverse, At(g.edges, d), d))
  }

  // ---------------------------------------------------------------- what the two indexes hold

  lemma {:induction false} IndexedAt(reverse: Index, refs: seq<Digest>, d: Digest, t: Digest)
    ensures At(Indexed(reverse, refs, d), t) == At(reverse, t) + Copies(d, multiset(refs)[t])
    decreases |refs|
  {
    if refs != [] {
      var front, last := refs[..|refs| - 1], refs[|refs| - 1];
      IndexedAt(reverse, front, d, t);
      assert refs == front + [last];
      if t == last {
        assert Copies(d, multiset(front)[t]) + [d] == Copies(d, multiset(refs)[t]);
      }
    }
  }

  lemma {:induction false} WithoutIsFilter(list: seq<Digest>, d: Digest)
    ensures forall x :: x in Without(list, d) <==> x in list && x != d
    ensures d !in list ==> Without(list, d) == list
    decreases |list|
  {
    if list != [] {
      WithoutIsFilter(list[1..], d);
      assert list == [list[0]] + list[1..];
    }
  }

  lemma {:induction false} WithoutJoined(a: seq<Digest>, d: Digest, n: nat)
    ensures Without(a + Copies(d, n), d) == Without(a, d)
    decreases |a| + n
  {
    if a != [] {
      assert (a + Copies(d, n))[1..] == a[1..] + Copies(d, n);
      WithoutJoined(a[1..], d, n);
    } else if n > 0 {
      assert (a + Copies(d, n))[1..] == a + Copies(d, n - 1);
      WithoutJoined(a, d, n - 1);
    }
  }

  lemma {:induction false} UnindexedAt(reverse: Index, refs: seq<Digest>, d: Digest, t: Digest)
    ensures At(Unindexed(reverse, refs, d), t) ==
            if t in refs then Without(At(reverse, t), d) else At(reverse, t)
    decreases |refs|
  {
    if refs != [] {
      var front, last := refs[..|refs| - 1], refs[|refs| - 1];
      UnindexedAt(reverse, front, d, t);
      assert refs == front + [last];
      if t == last && t in front {
        WithoutIsFilter(At(reverse, t), d);
        WithoutIsFilter(Without(At(reverse, t), d), d);
      }
    }
  }

  // ---------------------------------------------------------------- the indexes agree

  ghost predicate Agrees(g: Graph) {
    forall s, t :: t in At(g.edges, s) <==> s in At(g.reverse, t)
  }

  lemma AddedReverse(g: Graph, d: Digest, refs: seq<Digest>, s: Digest, t: Digest)
    ensures s in At(Added(g, d, refs).reverse, t) <==> s in At(g.reverse, t) || (s == d && t in refs)
  {
    IndexedAt(g.reverse, refs, d, t);
    assert t in refs <==> multiset(refs)[t] > 0;
    if t in refs { assert At(Added(g, d, refs).reverse, t)[|At(g.reverse, t)|] == d; }
  }

  /** Adding a manifest keeps the two indexes in agreement exactly when it does not drop an edge
      that an earlier manifest of the same digest had put in. */
  lemma AddAgreesIff(g: Graph, d: Digest, refs: seq<Digest>)
    requires Agrees(g)
    ensures Agrees(Added(g, d, refs)) <==> forall t :: t in At(g.edges, d) ==> t in refs
  {
    var h := Added(g, d, refs);
    if Agrees(h) {
      forall t | t in At(g.edges, d) ensures t in refs {
        AddedReverse(g, d, refs, d, t);
        assert d in At(g.reverse, t);
        assert t in At(h.edges, d);
      }
    }
    if forall t :: t in At(g.edges, d) ==> t in refs {
      forall s, t ensures t in At(h.edges, s) <==> s in At(h.reverse, t) {
        AddedReverse(g, d, refs, s, t);
        assert t in At(g.edges, s) <==> s in At(g.reverse, t);
      }
    }
  }

  lemma RemoveAgrees(g: Graph, d: Digest)
    requires Agrees(g)
    ensures Agrees(Removed(g, d))
  {
    var h := Removed(g, d);
    forall s, t ensures t in At(h.edges, s) <==> s in At(h.reverse, t) {
      UnindexedAt(g.reverse, At(g.edges, d), d, t);
      WithoutIsFilter(At(g.reverse, t), d);
      assert t in At(g.edges, s) <==> s in At(g.reverse, t);
      assert t in At(g.edges, d) <==> d in At(g.reverse, t);
    }
  }

  /** Removing a freshly added digest gives back every edge and every Dependents answer, in order,
      however often the manifest repeats a reference. */
  lemma RemoveUndoesAdd(g: Graph, d: Digest, refs: seq<Digest>)
    requires Agrees(g) && d !in g.edges
    ensures Removed(Added(g, d, refs), d).edges == g.edges
    ensures forall t :: At(Removed(Added(g, d, refs), d).reverse, t) == At(g.reverse, t)
  {
    var h := Added(g, d, refs);
    forall t ensures At(Removed(h, d).reverse, t) == At(g.reverse, t) {
      assert d in At(g.reverse, t) <==> t in At(g.edges, d);
      IndexedAt(g.reverse, refs, d, t);
      UnindexedAt(h.reverse, refs, d, t);
      WithoutJoined(At(g.reverse, t), d, multiset(refs)[t]);
      WithoutIsFilter(At(g.reverse, t), d);
      assert t in refs <==> multiset(refs)[t] > 0;
    }
  }

  datatype Change = Add(d: Digest) | Remove(d: Digest)

  /** A run of AddManifest and Remove calls, where a digest always comes with the same references. */
  function Run(changes: seq<Change>, refs: Digest -> seq<Digest>): Graph {
    if changes == [] then Graph(map[], map[])
    else
      var g := Run(changes[..|changes| - 1], refs);
      match changes[|changes| - 1]
      case Add(d) => Added(g, d, refs(d))
      case Remove(d) => Removed(g, d)
  }

  lemma {:induction false} RunAgrees(changes: seq<Change>, refs: Digest -> seq<Digest>)
    ensures Agrees(Run(changes, refs))
    ensures forall d :: d in Run(changes, refs).edges ==> Run(changes, refs).edges[d] == refs(d)
    decreases |changes|
  {
    if changes != [] {
      var front := changes[..|changes| - 1];
      RunAgrees(front, refs);
      var g := Run(front, refs);
      match changes[|changes| - 1]
      case Add(d) => AddAgreesIff(g, d, refs(d));
      case Remove(d) => RemoveAgrees(g, d);
    }
  }

  /** The last call about the digest was an AddManifest. */
  predicate LastAdded(changes: seq<Change>, d: Digest) {
    changes != [] &&
    var last := changes[|changes| - 1];
    if last.d == d then last.Add? else LastAdded(changes[..|changes| - 1], d)
  }

  /** After every run the graph holds the edges of exactly those digests that were added and not removed since, and
      Dependents names exactly those of them that reference the digest. */
  lemma {:induction false} RunHolds(changes: seq<Change>, refs: Digest -> seq<Digest>, d: Digest, t: Digest)
    ensures d in Run(changes, refs).edges <==> LastAdded(changes, d)
    ensures d in At(Run(changes, refs).reverse, t) <==> LastAdded(changes, d) && t in refs(d)
  {
    EdgesOfRun(changes, refs, d);
    RunAgrees(changes, refs);
    assert t in At(Run(changes, refs).edges, d) <==> d in At(Run(changes, refs).reverse, t);
  }

  lemma {:induction false} EdgesOfRun(changes: seq<Change>, refs: Digest -> seq<Digest>, d: Digest)
    ensures d in Run(changes, refs).edges <==> LastAdded(changes, d)
    decreases |changes|
  {
    if changes != [] { EdgesOfRun(changes[..|changes| - 1], refs, d); }
  }

  // ---------------------------------------------------------------- reachability

  ghost predicate Closed(edges: Index, s: set<Digest>) {
    forall d, t :: d in s && t in At(edges, d) ==> t in s
  }

  ghost predicate HoldsAll(s: set<Digest>, list: seq<Digest>) {
    forall d :: d in list ==> d in s
  }

  /** The least set that holds the roots and is closed under the edges. */
  ghost predicate IsClosure(edges: Index, roots: seq<Digest>, s: set<Digest>) {
    && HoldsAll(s, roots)
    && Closed(edges, s)
    && forall other :: HoldsAll(other, roots) && Closed(edges, other) ==> s <= other
  }

  ghost function Universe(edges: Index, roots: seq<Digest>): set<Digest> {
    (set d | d in roots) + (set s, t | s in edges && t in edges[s] :: t)
  }

  class ReferenceGraph {
    var edges: Index
    var reverse: Index

    constructor ()
      ensures Value() == Graph(map[], map[])
    {
      edges, reverse := map[], map[];
    }

    function Value(): Graph
      reads this
    {
      Graph(edges, reverse)
    }

    method AddManifest(m: Manifest)
      modifies this
      ensures Value() == Added(old(Value()), m.digest, m.RefList())
    {
      var refs := m.References();
      edges := edges[m.digest := refs];
      for i := 0 to |refs|
        invariant edges == old(edges)[m.digest := refs]
        invariant reverse == Indexed(old(reverse), refs[..i], m.digest)
      {
        assert refs[..i + 1][..i] == refs[..i];
        var list := if refs[i] in reverse then reverse[refs[i]] else [];
        reverse := reverse[refs[i] := list + [m.digest]];
      }
      assert refs[..|refs|] == refs;
    }

    /** Breadth-first search. The measure is the digests not yet seen, then the queue length. */
    method Reachable(roots: seq<Digest>) returns (seen: set<Digest>)
      ensures IsClosure(edges, roots, seen)
    {
      seen := {};
      var queue := roots;
      ghost var universe := Universe(edges, roots);
      while |queue| > 0
        invariant seen <= universe && HoldsAll(universe, queue)
        invariant forall d :: d in roots ==> d in seen || d in queue
        invariant forall d, t :: d in seen && t in At(edges, d) ==> t in seen || t in queue
        invariant forall other :: HoldsAll(other, roots) && Closed(edges, other) ==>
            seen <= other && HoldsAll(other, queue)
        decreases universe - seen, |queue|
      {
        var d := queue[0];
        assert queue == [d] + queue[1..];
        queue := queue[1..];
        if d in seen { continue; }
        seen := seen + {d};
        queue := queue + (if d in edges then edges[d] else []);
      }
    }

    method Dependents(d: Digest) returns (r: seq<Digest>)
      ensures r == At(reverse, d)
    {
      r := if d in reverse then reverse[d] else [];
    }

    /** The inner loop of Remove: keeps every element but `d`, in order. */
    static method Compacted(list: seq<Digest>, d: Digest) returns (out: seq<Digest>)
      ensures out == Without(list, d)
    {
      out := [];
      assert list[0..] == list;
      for k := 0 to |list|
        invariant out + Without(list[k..], d) == Without(list, d)
      {
        assert list[k..][0] == list[k] && list[k..][1..] == list[k + 1..];
        if list[k] != d { out := out + [list[k]]; }
      }
      assert list[|list|..] == [];
    }

    method Remove(d: Digest)
      modifies this
      ensures Value() == Removed(old(Value()), d)
    {
      var refs := if d in edges then edges[d] else [];
      for i := 0 to |refs|
        invariant edges == old(edges)
        invariant reverse == Unindexed(old(reverse), refs[..i], d)
      {
        assert refs[..i + 1][..i] == refs[..i];
        var out := Compacted(if refs[i] in reverse then reverse[refs[i]] else [], d);
        reverse := reverse[refs[i] := out];
      }
      assert refs[..|refs|] == refs;
      edges := edges - {d};
    }
  }
}
