/**
 * The percolation grid as an object: an N-by-N array of open sites, the
 * open-site counter and two weighted quick-union objects over N*N+2
 * elements.  Each method is proved against module PercolationModel: its
 * effect on `Abs()` is the model's operation, and `Valid()` carries the
 * model's invariant and the meaning of both structures (module Flow).
 */
module Percolations {
  import opened Grid
  import opened PercolationModel
  import opened UnionFind
  import QU = QuickUnion
  import Flow

  datatype Outcome = Pass | Fail(error: Error)

  class Percolation {
    const sizeOfGrid: int
    const sites: array2<bool>
    // uf1 joins the last row to the virtual bottom; uf2 never does, so that
    // fullness is not reported through the bottom
    const uf1: WeightedQuickUnionUF
    const uf2: WeightedQuickUnionUF
    var openSites: int

    ghost function Cells(): (g: seq<seq<bool>>)
      reads sites
      ensures |g| == sites.Length0 && forall row :: 0 <= row < |g| ==> |g[row]| == sites.Length1
    {
      seq(sites.Length0, row requires 0 <= row < sites.Length0 reads sites =>
        seq(sites.Length1, col requires 0 <= col < sites.Length1 reads sites => sites[row, col]))
    }

    ghost function Abs(): System
      reads this, sites, uf1.parent, uf1.size, uf2.parent, uf2.size
    {
      System(sizeOfGrid, Cells(), openSites, uf1.Model(), uf2.Model())
    }

    ghost function Repr(): set<object> {
      {this, sites, uf1, uf1.parent, uf1.size, uf2, uf2.parent, uf2.size}
    }

    /** The objects are separate and well formed, with the sizes the model expects. */
    ghost predicate Sound()
      reads Repr()
    {
      uf1 != uf2 &&
      uf1.parent != uf2.parent && uf1.parent != uf2.size &&
      uf1.size != uf2.parent && uf1.size != uf2.size &&
      uf1.Valid() && uf2.Valid() &&
      sizeOfGrid > 0 && sites.Length0 == sizeOfGrid && sites.Length1 == sizeOfGrid &&
      uf1.parent.Length == sizeOfGrid * sizeOfGrid + 2 && uf2.parent.Length == sizeOfGrid * sizeOfGrid + 2
    }

    ghost predicate Valid()
      reads Repr()
    {
      Sound() && Inv(Abs()) && Flow.Faithful(Abs())
    }

    /** An N-by-N grid with every site blocked (the size check is done by `NewPercolation`). */
    constructor (N: int)
      requires N > 0
      ensures Valid() && fresh(sites)
      ensures fresh(uf1) && fresh(uf1.parent) && fresh(uf1.size) && fresh(uf2) && fresh(uf2.parent) && fresh(uf2.size)
      ensures Abs() == Init(N).value
    {
      sizeOfGrid := N;
      uf1 := new WeightedQuickUnionUF(N * N + 2);
      uf2 := new WeightedQuickUnionUF(N * N + 2);
      var grid := BlockedSites(N);
      sites := grid;
      openSites := 0;
      new;
      assert forall row :: 0 <= row < N ==> Cells()[row] == Blocked(N)[row];
      assert Cells() == Blocked(N);
      assert Abs() == Init(N).value;
      InitInv(N);
      Flow.InitFaithful(N);
    }

    /** A new N-by-N array with every site blocked, filled row by row. */
    static method BlockedSites(N: int) returns (grid: array2<bool>)
      requires N > 0
      ensures fresh(grid) && grid.Length0 == N && grid.Length1 == N
      ensures forall row, col :: 0 <= row < N && 0 <= col < N ==> !grid[row, col]
    {
      grid := new bool[N, N];
      for i := 0 to N
        invariant forall row, col :: 0 <= row < i && 0 <= col < N ==> !grid[row, col]
      {
        for j := 0 to N
          invariant forall row, col :: 0 <= row < i && 0 <= col < N ==> !grid[row, col]
          invariant forall col :: 0 <= col < j ==> !grid[i, col]
        {
          grid[i, j] := false;
        }
      }
    }

    /** Opens site (row, col) if it is not open already, joining it to its open
        neighbours and to the virtual sites; out-of-grid coordinates change nothing. */
    method Open(row: int, col: int) returns (r: Outcome)
      requires Valid()
      modifies this, sites, uf1, uf1.parent, uf1.size, uf2, uf2.parent, uf2.size
      ensures Valid()
      ensures r == if InGrid(sizeOfGrid, row, col) then Pass else Fail(OutOfRange)
      ensures Abs() == if InGrid(sizeOfGrid, row, col) then OpenSite(old(Abs()), row, col) else old(Abs())
    {
      if row < 0 || row >= sizeOfGrid || col < 0 || col >= sizeOfGrid {
        return Fail(OutOfRange);
      }
      if !sites[row, col] {
        OpenSiteInv(Abs(), row, col);
        Flow.OpenSiteFaithful(Abs(), row, col);
        OpenBlocked(row, col);
      }
      r := Pass;
    }

    /** Marks the blocked site (row, col) open, counts it and makes its unions. */
    method OpenBlocked(row: int, col: int)
      requires Sound() && InGrid(sizeOfGrid, row, col) && !sites[row, col]
      modifies this, sites, uf1, uf1.parent, uf1.size, uf2, uf2.parent, uf2.size
      ensures Sound()
      ensures Abs() == OpenSite(old(Abs()), row, col)
    {
      ghost var s0 := Abs();
      ghost var t := OpenSite(s0, row, col);
      sites[row, col] := true;
      openSites := openSites + 1;
      assert forall i :: 0 <= i < sizeOfGrid ==> Cells()[i] == t.grid[i];
      assert Cells() == t.grid;
      ConnectAboveAndBeside(row, col);
      ConnectBelow(row, col);
      OpenSiteSteps(s0, row, col, uf1.Model(), uf2.Model());
    }

    /** One union in both structures. */
    method LinkBoth(a: int, b: int)
      requires Sound() && 0 <= a < sizeOfGrid * sizeOfGrid + 2 && 0 <= b < sizeOfGrid * sizeOfGrid + 2
      modifies uf1, uf1.parent, uf1.size, uf2, uf2.parent, uf2.size
      ensures Sound() && Cells() == old(Cells())
      ensures uf1.Model() == QU.UnionAll(old(uf1.Model()), [(a, b)])
      ensures uf2.Model() == QU.UnionAll(old(uf2.Model()), [(a, b)])
    {
      QU.UnionAllSingle(uf1.Model(), a, b);
      QU.UnionAllSingle(uf2.Model(), a, b);
      uf1.Union(a, b);
      uf2.Union(a, b);
    }

    /** Joins site to (row, col) in both structures if (row, col) is open. */
    method JoinIfOpen(site: int, row: int, col: int)
      requires Sound() && 0 <= site < sizeOfGrid * sizeOfGrid + 2 && InGrid(sizeOfGrid, row, col)
      modifies uf1, uf1.parent, uf1.size, uf2, uf2.parent, uf2.size
      ensures Sound() && Cells() == old(Cells())
      ensures uf1.Model() == QU.UnionAll(old(uf1.Model()), PercolationModel.JoinIfOpen(sizeOfGrid, Cells(), site, row, col))
      ensures uf2.Model() == QU.UnionAll(old(uf2.Model()), PercolationModel.JoinIfOpen(sizeOfGrid, Cells(), site, row, col))
    {
      if sites[row, col] {
        LinkBoth(site, Encode(sizeOfGrid, row, col));
      }
    }

    /** The unions of a newly opened site with the virtual top, or with its open
        neighbours above, to the left and to the right. */
    method ConnectAboveAndBeside(row: int, col: int)
      requires Sound() && InGrid(sizeOfGrid, row, col)
      modifies uf1, uf1.parent, uf1.size, uf2, uf2.parent, uf2.size
      ensures Sound() && Cells() == old(Cells())
      ensures uf1.Model() == QU.UnionAll(old(uf1.Model()), PercolationModel.ConnectAboveAndBeside(sizeOfGrid, Cells(), row, col))
      ensures uf2.Model() == QU.UnionAll(old(uf2.Model()), PercolationModel.ConnectAboveAndBeside(sizeOfGrid, Cells(), row, col))
    {
      var n := sizeOfGrid;
      var site := Encode(n, row, col);
      if row == 0 {
        LinkBoth(site, VirtualTop);
      } else {
        ghost var f1, f2 := uf1.Model(), uf2.Model();
        JoinIfOpen(site, row - 1, col);
        ghost var p1, q1 := uf1.Model(), uf2.Model();
        if col != 0 {
          JoinIfOpen(site, row, col - 1);
        }
        ghost var p2, q2 := uf1.Model(), uf2.Model();
        if col != n - 1 {
          JoinIfOpen(site, row, col + 1);
        }
        AboveAndBesideSteps(f1, n, Cells(), row, col, p1, p2, uf1.Model());
        AboveAndBesideSteps(f2, n, Cells(), row, col, q1, q2, uf2.Model());
      }
    }

    /** The union of a newly opened site with its open neighbour below, or, in
        the last row, with the virtual bottom in uf1 only. */
    method ConnectBelow(row: int, col: int)
      requires Sound() && InGrid(sizeOfGrid, row, col)
      modifies uf1, uf1.parent, uf1.size, uf2, uf2.parent, uf2.size
      ensures Sound() && Cells() == old(Cells())
      ensures uf1.Model() == QU.UnionAll(old(uf1.Model()), PercolationModel.ConnectBelow(sizeOfGrid, Cells(), row, col, true))
      ensures uf2.Model() == QU.UnionAll(old(uf2.Model()), PercolationModel.ConnectBelow(sizeOfGrid, Cells(), row, col, false))
    {
      var n := sizeOfGrid;
      var site := Encode(n, row, col);
      if row != n - 1 && sites[row + 1, col] {
        LinkBoth(site, Encode(n, row + 1, col));
      } else if row == n - 1 {
        QU.UnionAllSingle(uf1.Model(), site, VirtualBottom(n));
        uf1.Union(site, VirtualBottom(n));
      }
    }

    method IsOpen(row: int, col: int) returns (r: Result<bool>)
      requires Valid()
      ensures r == PercolationModel.IsOpen(Abs(), row, col)
    {
      if row < 0 || row >= sizeOfGrid || col < 0 || col >= sizeOfGrid {
        return Err(OutOfRange);
      }
      r := Ok(sites[row, col]);
    }

    /** Fullness as intended: the site and the virtual top share a
        root in uf2, exactly when an open path leads to the site from the top row. */
    method IsFull(row: int, col: int) returns (r: Result<bool>)
      requires Valid()
      ensures r == PercolationModel.IsFull(Abs(), row, col)
      ensures r.Ok? ==> (r.value <==> Flow.Path(sizeOfGrid, Cells(), false, Encode(sizeOfGrid, row, col), VirtualTop))
      ensures r.Ok? && !sites[row, col] ==> !r.value
    {
      if row < 0 || row >= sizeOfGrid || col < 0 || col >= sizeOfGrid {
        return Err(OutOfRange);
      }
      var siteRoot := uf2.Find(Encode(sizeOfGrid, row, col));
      var topRoot := uf2.Find(VirtualTop);
      r := Ok(siteRoot == topRoot);
      Flow.FullMeansPath(Abs(), row, col);
      if !sites[row, col] {
        BlockedNeverFull(Abs(), row, col);
      }
    }

    /** The source's fullness test: uf2's root of the site against uf1's root of the virtual top. */
    method IsFullAsWritten(row: int, col: int) returns (r: Result<bool>)
      requires Valid()
      ensures r == PercolationModel.IsFullAsWritten(Abs(), row, col)
      ensures r.Ok? && !sites[row, col] ==> !r.value
    {
      if row < 0 || row >= sizeOfGrid || col < 0 || col >= sizeOfGrid {
        return Err(OutOfRange);
      }
      var siteRoot := uf2.Find(Encode(sizeOfGrid, row, col));
      var topRoot := uf1.Find(VirtualTop);
      r := Ok(siteRoot == topRoot);
      if !sites[row, col] {
        BlockedNeverFull(Abs(), row, col);
      }
    }

    method NumberOfOpenSites() returns (r: int)
      requires Valid()
      ensures r == CountOpen(Cells())
      ensures 0 <= r <= sizeOfGrid * sizeOfGrid
    {
      r := openSites;
      CountOpenBound(Cells(), sizeOfGrid);
    }

    /** Whether the virtual top and the virtual bottom share a root in uf1:
        exactly when an open path crosses the grid from the first row to the last. */
    method Percolates() returns (r: bool)
      requires Valid()
      ensures r == PercolationModel.Percolates(Abs())
      ensures r <==> Flow.Path(sizeOfGrid, Cells(), true, VirtualTop, VirtualBottom(sizeOfGrid))
    {
      var bottomRoot := uf1.Find(VirtualBottom(sizeOfGrid));
      var topRoot := uf1.Find(VirtualTop);
      r := bottomRoot == topRoot;
      Flow.PercolatesMeansPath(Abs());
    }
  }

  /** `new Percolation(N)`: fails with InvalidSize when N <= 0. */
  method NewPercolation(N: int) returns (r: Result<Percolation>)
    ensures r.Err? <==> N <= 0
    ensures r.Err? ==> r.error == InvalidSize
    ensures r.Ok? ==> fresh(r.value.Repr()) && r.value.Valid() && r.value.Abs() == Init(N).value
  {
    if N <= 0 {
      return Err(InvalidSize);
    }
    var p := new Percolation(N);
    r := Ok(p);
  }
}
