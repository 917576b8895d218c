/**
 * A stand-in for the weighted quick-union class the percolation grid uses:
 * parent and size arrays over the elements 0 .. n-1, a `Find` that walks
 * parent links without path compression, and a `Union` by size.  Every
 * method is proved against the value-level functions of module QuickUnion.
 */
module UnionFind {
  import QuickUnion

  class WeightedQuickUnionUF {
    const parent: array<int>
    const size: array<int>
    // ghost witnesses of the forest shape: each element's root and its distance to it
    ghost var root: seq<int>
    ghost var depth: seq<nat>

    ghost function Model(): QuickUnion.Forest
      reads parent, size
    {
      QuickUnion.Forest(parent[..], size[..])
    }

    ghost predicate Valid()
      reads this, parent, size
    {
      parent != size && QuickUnion.Invariant(Model(), root, depth)
    }

    /** n singleton sets: every element is its own parent and has size 1. */
    constructor (n: int)
      requires n >= 0
      ensures Valid() && fresh(parent) && fresh(size)
      ensures Model() == QuickUnion.Singletons(n)
    {
      var p := new int[n];
      var s := new int[n];
      for i := 0 to n
        invariant forall k :: 0 <= k < i ==> p[k] == k && s[k] == 1
      {
        p[i] := i;
        s[i] := 1;
      }
      parent, size := p, s;
      root, depth := seq(n, i => i), seq(n, i => 0);
      new;
      assert Model() == QuickUnion.Singletons(n);
      QuickUnion.SingletonsInvariant(n);
    }

    /** The root of p's tree, reached by walking parent links. */
    method Find(p: int) returns (r: int)
      requires Valid() && 0 <= p < parent.Length
      ensures r == QuickUnion.Find(Model(), p)
      ensures 0 <= r < parent.Length && parent[r] == r
    {
      ghost var f := Model();
      r := p;
      while r != parent[r]
        invariant 0 <= r < parent.Length && root[r] == root[p]
        decreases depth[r]
      {
        assert QuickUnion.NodeInvariant(f, root, depth, r);
        r := parent[r];
      }
      assert QuickUnion.NodeInvariant(f, root, depth, r);
      QuickUnion.FindIsRoot(f, root, depth, p);
    }

    /** Merges the sets of p and q, hanging the smaller tree under the larger. */
    method Union(p: int, q: int)
      requires Valid() && 0 <= p < parent.Length && 0 <= q < parent.Length
      modifies this, parent, size
      ensures Valid()
      ensures Model() == QuickUnion.Union(old(Model()), p, q)
    {
      ghost var f := Model();
      var rootP := Find(p);
      var rootQ := Find(q);
      if rootP == rootQ {
        return;
      }
      if size[rootP] < size[rootQ] {
        parent[rootP] := rootQ;
        size[rootQ] := size[rootQ] + size[rootP];
        QuickUnion.LinkKeepsInvariant(f, root, depth, rootP, rootQ);
        root, depth := QuickUnion.Merge(root, rootP, rootQ), QuickUnion.Deepen(depth, root, rootP);
      } else {
        parent[rootQ] := rootP;
        size[rootP] := size[rootP] + size[rootQ];
        QuickUnion.LinkKeepsInvariant(f, root, depth, rootQ, rootP);
        root, depth := QuickUnion.Merge(root, rootQ, rootP), QuickUnion.Deepen(depth, root, rootQ);
      }
    }
  }
}
