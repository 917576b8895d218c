/**
 * Weighted quick-union on values: the state of a disjoint-set structure over
 * the elements 0 .. n-1 as two sequences, parent links and subtree sizes.
 * `Find` walks parent links to a root (no path compression); `Union` hangs the
 * root of the smaller tree under the root of the larger one and, on equal
 * sizes, hangs q's root under p's.  The class in module UnionFind is proved
 * against these functions.
 */
module QuickUnion {

  datatype Forest = Forest(parent: seq<int>, size: seq<int>)

  /** One size per element and every parent link inside the universe. */
  predicate Closed(f: Forest) {
    |f.size| == |f.parent| &&
    forall i :: 0 <= i < |f.parent| ==> 0 <= f.parent[i] < |f.parent|
  }

  /** Follows at most `fuel` parent links from i, stopping at a root. */
  function Climb(f: Forest, i: int, fuel: nat): (r: int)
    requires Closed(f) && 0 <= i < |f.parent|
    ensures 0 <= r < |f.parent|
    decreases fuel
  {
    if fuel == 0 || f.parent[i] == i then i else Climb(f, f.parent[i], fuel - 1)
  }

  /** The root of i's tree: in a valid forest no path is longer than n links. */
  function Find(f: Forest, i: int): (r: int)
    requires Closed(f) && 0 <= i < |f.parent|
    ensures 0 <= r < |f.parent|
  {
    Climb(f, i, |f.parent|)
  }

  predicate Connected(f: Forest, i: int, j: int)
    requires Closed(f) && 0 <= i < |f.parent| && 0 <= j < |f.parent|
  {
    Find(f, i) == Find(f, j)
  }

  /** The root that survives `Union(f, p, q)`. */
  function Winner(f: Forest, p: int, q: int): int
    requires Closed(f) && 0 <= p < |f.parent| && 0 <= q < |f.parent|
  {
    var rp := Find(f, p);
    var rq := Find(f, q);
    if f.size[rp] < f.size[rq] then rq else rp
  }

  function Union(f: Forest, p: int, q: int): (g: Forest)
    requires Closed(f) && 0 <= p < |f.parent| && 0 <= q < |f.parent|
    ensures Closed(g) && |g.parent| == |f.parent|
    ensures Find(f, p) == Find(f, q) ==> g == f
  {
    var rp := Find(f, p);
    var rq := Find(f, q);
    if rp == rq then f
    else if f.size[rp] < f.size[rq] then
      Forest(f.parent[rp := rq], f.size[rq := f.size[rq] + f.size[rp]])
    else
      Forest(f.parent[rq := rp], f.size[rp := f.size[rp] + f.size[rq]])
  }

  /** n singleton sets, each its own root with size 1. */
  function Singletons(n: nat): (f: Forest)
    ensures Closed(f) && |f.parent| == n
    ensures forall i :: 0 <= i < n ==> f.parent[i] == i && f.size[i] == 1
  {
    Forest(seq(n, i => i), seq(n, i => 1))
  }

  /** Number of positions of s holding x. */
  function Count(s: seq<int>, x: int): (c: nat)
    ensures c <= |s|
  {
    if s == [] then 0
    else Count(s[..|s| - 1], x) + (if s[|s| - 1] == x then 1 else 0)
  }

  /** s with every occurrence of l replaced by w. */
  function Merge(s: seq<int>, l: int, w: int): seq<int> {
    seq(|s|, k requires 0 <= k < |s| => if s[k] == l then w else s[k])
  }

  /** The depths after the tree rooted at l is hung one level further down. */
  function Deepen(depth: seq<nat>, root: seq<int>, l: int): seq<nat>
    requires |root| == |depth|
  {
    seq(|depth|, k requires 0 <= k < |depth| => if root[k] == l then depth[k] + 1 else depth[k])
  }

  /**
   * The shape of a weighted quick-union forest, with two ghost witnesses:
   * root[i] is the root of i's tree and depth[i] the number of links from i
   * to it.  A root's size is the number of elements in its tree, and every
   * depth is below the size of its tree, so a walk of n links always ends.
   */
  ghost predicate Invariant(f: Forest, root: seq<int>, depth: seq<nat>) {
    Closed(f) && |root| == |f.parent| && |depth| == |f.parent| &&
    forall i :: 0 <= i < |f.parent| ==> NodeInvariant(f, root, depth, i)
  }

  /** What `Invariant` says about the single element i. */
  ghost predicate NodeInvariant(f: Forest, root: seq<int>, depth: seq<nat>, i: int)
    requires Closed(f) && |root| == |f.parent| && |depth| == |f.parent| && 0 <= i < |f.parent|
  {
    0 <= root[i] < |root| && f.parent[root[i]] == root[i] &&
    (if f.parent[i] == i then root[i] == i && depth[i] == 0 && f.size[i] == Count(root, i)
     else root[i] == root[f.parent[i]] && depth[i] == depth[f.parent[i]] + 1) &&
    depth[i] < f.size[root[i]]
  }

  ghost predicate Valid(f: Forest) {
    exists root: seq<int>, depth: seq<nat> :: Invariant(f, root, depth)
  }

  lemma {:induction false} ClimbReachesRoot(f: Forest, root: seq<int>, depth: seq<nat>, i: int, fuel: nat)
    requires Invariant(f, root, depth) && 0 <= i < |f.parent| && depth[i] <= fuel
    ensures Climb(f, i, fuel) == root[i]
    decreases fuel
  {
    assert NodeInvariant(f, root, depth, i);
    if f.parent[i] != i {
      assert NodeInvariant(f, root, depth, f.parent[i]);
      ClimbReachesRoot(f, root, depth, f.parent[i], fuel - 1);
    }
  }

  /** In a valid forest `Find` returns the witness root: walking n links is enough. */
  lemma FindIsRoot(f: Forest, root: seq<int>, depth: seq<nat>, i: int)
    requires Invariant(f, root, depth) && 0 <= i < |f.parent|
    ensures Find(f, i) == root[i]
  {
    assert NodeInvariant(f, root, depth, i) && NodeInvariant(f, root, depth, root[i]);
    ClimbReachesRoot(f, root, depth, i, |f.parent|);
  }

  lemma FindAllRoots(f: Forest, root: seq<int>, depth: seq<nat>)
    requires Invariant(f, root, depth)
    ensures forall i :: 0 <= i < |f.parent| ==> Find(f, i) == root[i]
  {
    forall i | 0 <= i < |f.parent| ensures Find(f, i) == root[i] {
      FindIsRoot(f, root, depth, i);
    }
  }

  /** `Find` returns a root, and a root is its own representative. */
  lemma FindFindsRoot(f: Forest, i: int)
    requires Valid(f) && 0 <= i < |f.parent|
    ensures f.parent[Find(f, i)] == Find(f, i)
    ensures f.parent[i] == i ==> Find(f, i) == i
  {
    var root, depth :| Invariant(f, root, depth);
    FindIsRoot(f, root, depth, i);
    assert NodeInvariant(f, root, depth, i);
  }

  lemma {:induction false} CountMerge(s: seq<int>, l: int, w: int, x: int)
    requires l != w
    ensures Count(Merge(s, l, w), x) ==
            if x == w then Count(s, w) + Count(s, l) else if x == l then 0 else Count(s, x)
  {
    if s != [] {
      var t := s[..|s| - 1];
      assert Merge(s, l, w)[..|s| - 1] == Merge(t, l, w);
      CountMerge(t, l, w, x);
    }
  }

  lemma {:induction false} CountIdentity(n: nat, x: int)
    ensures Count(seq(n, i => i), x) == if 0 <= x < n then 1 else 0
  {
    if n > 0 {
      assert seq(n, i => i)[..n - 1] == seq(n - 1, i => i);
      CountIdentity(n - 1, x);
    }
  }

  /** Hanging root l under root w keeps the forest shape. */
  lemma LinkKeepsInvariant(f: Forest, root: seq<int>, depth: seq<nat>, l: int, w: int)
    requires Invariant(f, root, depth)
    requires 0 <= l < |f.parent| && 0 <= w < |f.parent| && l != w
    requires f.parent[l] == l && f.parent[w] == w
    ensures Invariant(Forest(f.parent[l := w], f.size[w := f.size[w] + f.size[l]]),
                      Merge(root, l, w), Deepen(depth, root, l))
  {
    var g := Forest(f.parent[l := w], f.size[w := f.size[w] + f.size[l]]);
    var root' := Merge(root, l, w);
    var depth' := Deepen(depth, root, l);
    assert NodeInvariant(f, root, depth, l) && NodeInvariant(f, root, depth, w);
    forall i | 0 <= i < |f.parent| ensures NodeInvariant(g, root', depth', i) {
      assert NodeInvariant(f, root, depth, i);
      assert NodeInvariant(f, root, depth, root[i]);
      if g.parent[i] == i {
        CountMerge(root, l, w, i);
      } else if i != l {
        assert NodeInvariant(f, root, depth, f.parent[i]);
      }
    }
  }

  /**
   * Union keeps the forest valid, and afterwards every element of the two
   * merged trees has the winner as its root while all other roots stay.
   */
  lemma UnionFinds(f: Forest, p: int, q: int)
    requires Valid(f) && 0 <= p < |f.parent| && 0 <= q < |f.parent|
    ensures Valid(Union(f, p, q))
    ensures forall i :: 0 <= i < |f.parent| ==>
              Find(Union(f, p, q), i) ==
              if Find(f, i) == Find(f, p) || Find(f, i) == Find(f, q) then Winner(f, p, q) else Find(f, i)
  {
    var root, depth :| Invariant(f, root, depth);
    FindAllRoots(f, root, depth);
    var rp, rq := Find(f, p), Find(f, q);
    assert NodeInvariant(f, root, depth, p) && NodeInvariant(f, root, depth, q);
    var g := Union(f, p, q);
    if rp != rq {
      var l, w := if f.size[rp] < f.size[rq] then rp else rq, Winner(f, p, q);
      var root' := Merge(root, l, w);
      var depth' := Deepen(depth, root, l);
      LinkKeepsInvariant(f, root, depth, l, w);
      assert Invariant(g, root', depth');
      FindAllRoots(g, root', depth');
    }
  }

  /** Union merges exactly the two sets of p and q (both directions of the iff). */
  lemma UnionConnects(f: Forest, p: int, q: int, i: int, j: int)
    requires Valid(f) && 0 <= p < |f.parent| && 0 <= q < |f.parent|
    requires 0 <= i < |f.parent| && 0 <= j < |f.parent|
    ensures Valid(Union(f, p, q))
    ensures Connected(Union(f, p, q), i, j) <==>
              Connected(f, i, j) ||
              (Connected(f, i, p) && Connected(f, j, q)) ||
              (Connected(f, i, q) && Connected(f, j, p))
  {
    UnionFinds(f, p, q);
    var root, depth :| Invariant(f, root, depth);
    FindAllRoots(f, root, depth);
    // the winner is one of the two roots, and no other root is relabelled
    assert Winner(f, p, q) == Find(f, p) || Winner(f, p, q) == Find(f, q);
  }

  /** The initial structure: every element is its own root at depth 0. */
  lemma SingletonsInvariant(n: nat)
    ensures Invariant(Singletons(n), seq(n, i => i), seq(n, i => 0))
  {
    var f := Singletons(n);
    var root: seq<int>, depth: seq<nat> := seq(n, i => i), seq(n, i => 0);
    forall r | 0 <= r < n ensures NodeInvariant(f, root, depth, r) {
      CountIdentity(n, r);
    }
  }

  /** The initial structure is valid and every element is a singleton. */
  lemma SingletonsValid(n: nat)
    ensures Valid(Singletons(n))
    ensures forall i :: 0 <= i < n ==> Find(Singletons(n), i) == i
  {
    SingletonsInvariant(n);
    FindAllRoots(Singletons(n), seq(n, i => i), seq(n, i => 0));
  }

  /** x is alone in its set. */
  ghost predicate Isolated(f: Forest, x: int)
    requires Closed(f) && 0 <= x < |f.parent|
  {
    forall k :: 0 <= k < |f.parent| ==> (Connected(f, k, x) <==> k == x)
  }

  /** Every pair connected in f is connected in g: g's partition is coarser. */
  ghost predicate Refines(f: Forest, g: Forest)
    requires Closed(f) && Closed(g) && |f.parent| == |g.parent|
  {
    forall i, j :: 0 <= i < |f.parent| && 0 <= j < |f.parent| && Connected(f, i, j) ==> Connected(g, i, j)
  }

  /** A union that does not name x leaves x alone. */
  lemma UnionKeepsIsolated(f: Forest, p: int, q: int, x: int)
    requires Valid(f) && 0 <= p < |f.parent| && 0 <= q < |f.parent| && 0 <= x < |f.parent|
    requires Isolated(f, x) && p != x && q != x
    ensures Isolated(Union(f, p, q), x)
  {
    forall k | 0 <= k < |f.parent| ensures Connected(Union(f, p, q), k, x) <==> k == x {
      UnionConnects(f, p, q, k, x);
      assert !Connected(f, p, x) && !Connected(f, q, x);
    }
  }

  /** The same union applied to a finer and a coarser structure keeps them so. */
  lemma UnionKeepsRefines(f: Forest, g: Forest, p: int, q: int)
    requires Valid(f) && Valid(g) && |f.parent| == |g.parent|
    requires 0 <= p < |f.parent| && 0 <= q < |f.parent| && Refines(f, g)
    ensures Refines(Union(f, p, q), Union(g, p, q))
  {
    forall i, j | 0 <= i < |f.parent| && 0 <= j < |f.parent| && Connected(Union(f, p, q), i, j)
      ensures Connected(Union(g, p, q), i, j)
    {
      UnionConnects(f, p, q, i, j);
      UnionConnects(g, p, q, i, j);
    }
  }

  /** Union never separates: its input refines its output. */
  lemma UnionRefines(f: Forest, p: int, q: int)
    requires Valid(f) && 0 <= p < |f.parent| && 0 <= q < |f.parent|
    ensures Refines(f, Union(f, p, q)) && Connected(Union(f, p, q), p, q)
  {
    forall i, j | 0 <= i < |f.parent| && 0 <= j < |f.parent| && Connected(f, i, j)
      ensures Connected(Union(f, p, q), i, j)
    {
      UnionConnects(f, p, q, i, j);
    }
    UnionConnects(f, p, q, p, q);
  }

  lemma RefinesTrans(f: Forest, g: Forest, h: Forest)
    requires Closed(f) && Closed(g) && Closed(h) && |f.parent| == |g.parent| == |h.parent|
    requires Refines(f, g) && Refines(g, h)
    ensures Refines(f, h)
  {
  }

  /** Every pair of ps names two elements of f. */
  predicate Pairs(f: Forest, ps: seq<(int, int)>) {
    forall i :: 0 <= i < |ps| ==> 0 <= ps[i].0 < |f.parent| && 0 <= ps[i].1 < |f.parent|
  }

  /** The unions of the pairs of ps, first to last. */
  function UnionAll(f: Forest, ps: seq<(int, int)>): (g: Forest)
    requires Closed(f) && Pairs(f, ps)
    ensures Closed(g) && |g.parent| == |f.parent|
    decreases |ps|
  {
    if ps == [] then f else UnionAll(Union(f, ps[0].0, ps[0].1), ps[1..])
  }

  lemma UnionAllSingle(f: Forest, p: int, q: int)
    requires Closed(f) && 0 <= p < |f.parent| && 0 <= q < |f.parent|
    ensures Pairs(f, [(p, q)]) && UnionAll(f, [(p, q)]) == Union(f, p, q)
  {
    assert [(p, q)][1..] == [];
  }

  lemma {:induction false} UnionAllAppend(f: Forest, ps: seq<(int, int)>, qs: seq<(int, int)>)
    requires Closed(f) && Pairs(f, ps + qs)
    ensures Pairs(f, ps) && Pairs(UnionAll(f, ps), qs)
    ensures UnionAll(f, ps + qs) == UnionAll(UnionAll(f, ps), qs)
    decreases |ps|
  {
    if ps == [] {
      assert ps + qs == qs;
    } else {
      assert (ps + qs)[0] == ps[0] && (ps + qs)[1..] == ps[1..] + qs;
      UnionAllAppend(Union(f, ps[0].0, ps[0].1), ps[1..], qs);
    }
  }

  /** A run of unions keeps the structure valid, never separates, and joins every pair it names. */
  lemma {:induction false} UnionAllRefines(f: Forest, ps: seq<(int, int)>)
    requires Valid(f) && Pairs(f, ps)
    ensures Valid(UnionAll(f, ps)) && Refines(f, UnionAll(f, ps))
    ensures forall i :: 0 <= i < |ps| ==> Connected(UnionAll(f, ps), ps[i].0, ps[i].1)
    decreases |ps|
  {
    if ps != [] {
      var h := Union(f, ps[0].0, ps[0].1);
      UnionFinds(f, ps[0].0, ps[0].1);
      UnionRefines(f, ps[0].0, ps[0].1);
      UnionAllRefines(h, ps[1..]);
      RefinesTrans(f, h, UnionAll(h, ps[1..]));
      forall i | 0 <= i < |ps| ensures Connected(UnionAll(f, ps), ps[i].0, ps[i].1) {
        if i > 0 {
          assert ps[i] == ps[1..][i - 1];
        }
      }
    }
  }

  /** A run of unions that never names x leaves x alone. */
  lemma {:induction false} UnionAllKeepsIsolated(f: Forest, ps: seq<(int, int)>, x: int)
    requires Valid(f) && Pairs(f, ps) && 0 <= x < |f.parent| && Isolated(f, x)
    requires forall i :: 0 <= i < |ps| ==> ps[i].0 != x && ps[i].1 != x
    ensures Isolated(UnionAll(f, ps), x)
    decreases |ps|
  {
    if ps != [] {
      UnionFinds(f, ps[0].0, ps[0].1);
      UnionKeepsIsolated(f, ps[0].0, ps[0].1, x);
      UnionAllKeepsIsolated(Union(f, ps[0].0, ps[0].1), ps[1..], x);
    }
  }

  /** The same run of unions on a finer and a coarser structure keeps the first finer. */
  lemma {:induction false} UnionAllKeepsRefines(f: Forest, g: Forest, ps: seq<(int, int)>)
    requires Valid(f) && Valid(g) && |f.parent| == |g.parent| && Pairs(f, ps) && Refines(f, g)
    ensures Pairs(g, ps) && Refines(UnionAll(f, ps), UnionAll(g, ps))
    decreases |ps|
  {
    if ps != [] {
      var p, q := ps[0].0, ps[0].1;
      UnionFinds(f, p, q);
      UnionFinds(g, p, q);
      UnionKeepsRefines(f, g, p, q);
      UnionAllKeepsRefines(Union(f, p, q), Union(g, p, q), ps[1..]);
    }
  }
}
