/**
 * The percolation system as a value: the grid of open sites, the open-site
 * counter and the two union-find structures.  `uf1` links the last row to a
 * virtual bottom and answers "does it percolate"; `uf2` never does, so that
 * fullness is not reported through the bottom ("backwash").  Index 0 is the
 * virtual top, 1 .. n*n are the sites, n*n+1 is the virtual bottom.
 */
module PercolationModel {
  import opened Grid
  import QU = QuickUnion

  datatype Error = InvalidSize | OutOfRange

  datatype Result<T> = Ok(value: T) | Err(error: Error)

  datatype System = System(n: int, grid: seq<seq<bool>>, openSites: int, uf1: QU.Forest, uf2: QU.Forest)

  const VirtualTop: int := 0

  function VirtualBottom(n: int): int {
    n * n + 1
  }

  /** An n-by-n grid and two structures over the n*n+2 elements. */
  predicate Shaped(s: System) {
    s.n >= 1 && Square(s.grid, s.n) &&
    QU.Closed(s.uf1) && QU.Closed(s.uf2) &&
    |s.uf1.parent| == s.n * s.n + 2 && |s.uf2.parent| == s.n * s.n + 2
  }

  /** A new system: every site blocked, no site counted, every element alone. */
  function Init(n: int): (r: Result<System>)
    ensures r.Err? <==> n <= 0
    ensures r.Err? ==> r.error == InvalidSize
    ensures r.Ok? ==> Shaped(r.value) && r.value.n == n
    ensures r.Ok? ==> r.value.openSites == 0 == CountOpen(r.value.grid)
    ensures r.Ok? ==> forall row, col :: InGrid(n, row, col) ==> !r.value.grid[row][col]
  {
    if n <= 0 then Err(InvalidSize)
    else
      CountOpenBlocked(n);
      Ok(System(n, Blocked(n), 0, QU.Singletons(n * n + 2), QU.Singletons(n * n + 2)))
  }

  predicate Opened(s: System, row: int, col: int)
    requires Shaped(s) && InGrid(s.n, row, col)
  {
    s.grid[row][col]
  }

  /** The union `open` makes between site and (row, col) when (row, col) is open. */
  function JoinIfOpen(n: int, g: seq<seq<bool>>, site: int, row: int, col: int): (ps: seq<(int, int)>)
    requires n > 0 && Square(g, n) && InGrid(n, row, col)
    ensures forall i :: 0 <= i < |ps| ==> ps[i] == (site, Encode(n, row, col)) && g[row][col]
  {
    if g[row][col] then [(site, Encode(n, row, col))] else []
  }

  /** The first unions for a newly opened site of g: a site of the first row
      joins the virtual top; any other site joins its open neighbours above,
      to the left (unless in the first column) and to the right (unless in
      the last column), in that order. */
  function ConnectAboveAndBeside(n: int, g: seq<seq<bool>>, row: int, col: int): (ps: seq<(int, int)>)
    requires n > 0 && Square(g, n) && InGrid(n, row, col)
    ensures forall i :: 0 <= i < |ps| ==> ps[i].0 == Encode(n, row, col) && 0 <= ps[i].1 <= n * n
  {
    var site := Encode(n, row, col);
    if row == 0 then [(site, VirtualTop)]
    else
      JoinIfOpen(n, g, site, row - 1, col) +
      (if col != 0 then JoinIfOpen(n, g, site, row, col - 1) else []) +
      (if col != n - 1 then JoinIfOpen(n, g, site, row, col + 1) else [])
  }

  /** The last union: a site above the last row joins its open neighbour
      below; a site of the last row joins the virtual bottom, in uf1 only
      (`withBottom`). */
  function ConnectBelow(n: int, g: seq<seq<bool>>, row: int, col: int, withBottom: bool): (ps: seq<(int, int)>)
    requires n > 0 && Square(g, n) && InGrid(n, row, col)
    ensures forall i :: 0 <= i < |ps| ==> ps[i].0 == Encode(n, row, col) && 1 <= ps[i].1 <= n * n + 1
  {
    var site := Encode(n, row, col);
    if row != n - 1 && g[row + 1][col] then JoinIfOpen(n, g, site, row + 1, col)
    else if row == n - 1 && withBottom then [(site, VirtualBottom(n))]
    else []
  }

  /** Every union `open` makes in uf1 (`withBottom`) or in uf2 for the newly
      opened site (row, col) of g, first to last; each names two of the n*n+2
      elements. */
  function Unions(n: int, g: seq<seq<bool>>, row: int, col: int, withBottom: bool): (ps: seq<(int, int)>)
    requires n > 0 && Square(g, n) && InGrid(n, row, col)
    ensures forall i :: 0 <= i < |ps| ==> 0 <= ps[i].0 < n * n + 2 && 0 <= ps[i].1 < n * n + 2
  {
    var a, b := ConnectAboveAndBeside(n, g, row, col), ConnectBelow(n, g, row, col, withBottom);
    assert forall i :: 0 <= i < |a + b| ==> (a + b)[i] == if i < |a| then a[i] else b[i - |a|];
    a + b
  }

  /** The three conditional joins of a site below the first row make the unions of `ConnectAboveAndBeside`. */
  lemma AboveAndBesideSteps(f: QU.Forest, n: int, g: seq<seq<bool>>, row: int, col: int, f1: QU.Forest, f2: QU.Forest, f3: QU.Forest)
    requires n > 0 && Square(g, n) && InGrid(n, row, col) && row != 0 && QU.Closed(f) && |f.parent| == n * n + 2
    requires f1 == QU.UnionAll(f, JoinIfOpen(n, g, Encode(n, row, col), row - 1, col))
    requires f2 == if col != 0 then QU.UnionAll(f1, JoinIfOpen(n, g, Encode(n, row, col), row, col - 1)) else f1
    requires f3 == if col != n - 1 then QU.UnionAll(f2, JoinIfOpen(n, g, Encode(n, row, col), row, col + 1)) else f2
    ensures f3 == QU.UnionAll(f, ConnectAboveAndBeside(n, g, row, col))
  {
    var site := Encode(n, row, col);
    var a := JoinIfOpen(n, g, site, row - 1, col);
    var b := if col != 0 then JoinIfOpen(n, g, site, row, col - 1) else [];
    var c := if col != n - 1 then JoinIfOpen(n, g, site, row, col + 1) else [];
    QU.UnionAllAppend(f, a, b);
    QU.UnionAllAppend(f, a + b, c);
  }

  /** The structures after the joins above and beside and then below are those of `OpenSite`. */
  lemma OpenSiteSteps(s: System, row: int, col: int, f1: QU.Forest, f2: QU.Forest)
    requires Shaped(s) && InGrid(s.n, row, col) && !s.grid[row][col]
    requires var n, g := s.n, OpenCell(s.grid, row, col);
      f1 == QU.UnionAll(QU.UnionAll(s.uf1, ConnectAboveAndBeside(n, g, row, col)), ConnectBelow(n, g, row, col, true)) &&
      f2 == QU.UnionAll(QU.UnionAll(s.uf2, ConnectAboveAndBeside(n, g, row, col)), ConnectBelow(n, g, row, col, false))
    ensures OpenSite(s, row, col) == System(s.n, OpenCell(s.grid, row, col), s.openSites + 1, f1, f2)
  {
    var n, g := s.n, OpenCell(s.grid, row, col);
    QU.UnionAllAppend(s.uf1, ConnectAboveAndBeside(n, g, row, col), ConnectBelow(n, g, row, col, true));
    QU.UnionAllAppend(s.uf2, ConnectAboveAndBeside(n, g, row, col), ConnectBelow(n, g, row, col, false));
  }

  /** uf1 makes the unions of uf2 and then, in the last row, the one with the virtual bottom. */
  lemma UnionsWithBottom(n: int, g: seq<seq<bool>>, row: int, col: int)
    requires n > 0 && Square(g, n) && InGrid(n, row, col)
    ensures Unions(n, g, row, col, true) ==
      Unions(n, g, row, col, false) + (if row == n - 1 then [(Encode(n, row, col), VirtualBottom(n))] else [])
  {
    if row == n - 1 {
      assert ConnectBelow(n, g, row, col, false) == [];
    }
  }

  /** Opening a site that is in the grid: nothing if it is open already;
      otherwise mark it open, count it and make the unions of `Unions` in
      each structure. */
  function OpenSite(s: System, row: int, col: int): (t: System)
    requires Shaped(s) && InGrid(s.n, row, col)
    ensures Shaped(t) && t.n == s.n
    ensures t.grid == OpenCell(s.grid, row, col)
    ensures t.openSites == s.openSites + (if Opened(s, row, col) then 0 else 1)
    ensures Opened(s, row, col) ==> t == s
  {
    if Opened(s, row, col) then
      assert s.grid[row][col := true] == s.grid[row];
      assert OpenCell(s.grid, row, col) == s.grid;
      s
    else
      var n, g := s.n, OpenCell(s.grid, row, col);
      System(n, g, s.openSites + 1,
        QU.UnionAll(s.uf1, Unions(n, g, row, col, true)), QU.UnionAll(s.uf2, Unions(n, g, row, col, false)))
  }

  function Open(s: System, row: int, col: int): (r: Result<System>)
    requires Shaped(s)
    ensures r.Err? <==> !InGrid(s.n, row, col)
    ensures r.Err? ==> r.error == OutOfRange
  {
    if !InGrid(s.n, row, col) then Err(OutOfRange) else Ok(OpenSite(s, row, col))
  }

  function IsOpen(s: System, row: int, col: int): (r: Result<bool>)
    requires Shaped(s)
    ensures r.Err? <==> !InGrid(s.n, row, col)
    ensures r.Err? ==> r.error == OutOfRange
  {
    if !InGrid(s.n, row, col) then Err(OutOfRange) else Ok(s.grid[row][col])
  }

  /** Fullness as the source computes it: the site's root in uf2 compared with
      the virtual top's root in uf1. */
  function IsFullAsWritten(s: System, row: int, col: int): (r: Result<bool>)
    requires Shaped(s)
    ensures r.Err? <==> !InGrid(s.n, row, col)
    ensures r.Err? ==> r.error == OutOfRange
  {
    if !InGrid(s.n, row, col) then Err(OutOfRange)
    else Ok(QU.Find(s.uf2, Encode(s.n, row, col)) == QU.Find(s.uf1, VirtualTop))
  }

  /** Fullness as intended: connected to the virtual top in uf2. */
  function IsFull(s: System, row: int, col: int): (r: Result<bool>)
    requires Shaped(s)
    ensures r.Err? <==> !InGrid(s.n, row, col)
    ensures r.Err? ==> r.error == OutOfRange
  {
    if !InGrid(s.n, row, col) then Err(OutOfRange)
    else Ok(QU.Connected(s.uf2, Encode(s.n, row, col), VirtualTop))
  }

  /** The counter; in a reachable system it is the number of open sites. */
  function NumberOfOpenSites(s: System): (r: int)
    ensures Inv(s) ==> r == CountOpen(s.grid)
  {
    s.openSites
  }

  /** The virtual top and the virtual bottom share a root in uf1. */
  predicate Percolates(s: System)
    requires Shaped(s)
    ensures Percolates(s) ==> !QU.Isolated(s.uf1, VirtualTop)
  {
    var joined := QU.Find(s.uf1, VirtualBottom(s.n)) == QU.Find(s.uf1, VirtualTop);
    assert joined ==> !QU.Isolated(s.uf1, VirtualTop) by {
      if joined {
        assert QU.Connected(s.uf1, VirtualBottom(s.n), VirtualTop);
      }
    }
    joined
  }

  // ---------------------------------------------------------------------
  // Invariants

  /** The facts about the two structures that every reachable system has. */
  ghost predicate Linked(s: System) {
    Shaped(s) && QU.Valid(s.uf1) && QU.Valid(s.uf2) &&
    // the virtual bottom is never joined in uf2
    QU.Isolated(s.uf2, VirtualBottom(s.n)) &&
    // every union of uf2 is also a union of uf1
    QU.Refines(s.uf2, s.uf1) &&
    // a blocked site has never been joined to anything
    (forall row, col :: InGrid(s.n, row, col) && !s.grid[row][col] ==>
       QU.Isolated(s.uf1, Encode(s.n, row, col)) && QU.Isolated(s.uf2, Encode(s.n, row, col)))
  }

  ghost predicate Inv(s: System) {
    Linked(s) && s.openSites == CountOpen(s.grid)
  }

  /** The virtual top or an open site of g: the only elements `open` ever joins in both structures. */
  predicate Joinable(n: int, g: seq<seq<bool>>, a: int)
    requires n > 0 && Square(g, n)
  {
    0 <= a <= n * n && (a == VirtualTop || g[Decode(n, a).0][Decode(n, a).1])
  }

  lemma JoinableIsNotBlocked(n: int, g: seq<seq<bool>>, a: int, row: int, col: int)
    requires n > 0 && Square(g, n) && Joinable(n, g, a) && InGrid(n, row, col) && !g[row][col]
    ensures a != Encode(n, row, col) && a != VirtualBottom(n)
  {
    DecodeEncode(n, row, col);
  }

  lemma OpenSiteIsJoinable(n: int, g: seq<seq<bool>>, row: int, col: int)
    requires n > 0 && Square(g, n) && InGrid(n, row, col) && g[row][col]
    ensures Joinable(n, g, Encode(n, row, col))
  {
    DecodeEncode(n, row, col);
  }

  /** Each pair of ps joins site with an open site of g, the virtual top or, if
      `withBottom`, the virtual bottom. */
  predicate JoinsSite(n: int, g: seq<seq<bool>>, site: int, withBottom: bool, ps: seq<(int, int)>)
    requires n > 0 && Square(g, n)
  {
    forall i :: 0 <= i < |ps| ==>
      ps[i].0 == site && (Joinable(n, g, ps[i].1) || (withBottom && ps[i].1 == VirtualBottom(n)))
  }

  lemma JoinsSiteAppend(n: int, g: seq<seq<bool>>, site: int, withBottom: bool, ps: seq<(int, int)>, qs: seq<(int, int)>)
    requires n > 0 && Square(g, n) && JoinsSite(n, g, site, withBottom, ps) && JoinsSite(n, g, site, withBottom, qs)
    ensures JoinsSite(n, g, site, withBottom, ps + qs)
  {
    assert forall i :: 0 <= i < |ps + qs| ==> (ps + qs)[i] == if i < |ps| then ps[i] else qs[i - |ps|];
  }

  lemma JoinIfOpenJoins(n: int, g: seq<seq<bool>>, site: int, row: int, col: int)
    requires n > 0 && Square(g, n) && InGrid(n, row, col)
    ensures JoinsSite(n, g, site, false, JoinIfOpen(n, g, site, row, col))
  {
    if g[row][col] {
      OpenSiteIsJoinable(n, g, row, col);
    }
  }

  /** `open` joins the opened site only with open sites and the virtual top, and
      in uf1 with the virtual bottom. */
  lemma UnionsJoinSite(n: int, g: seq<seq<bool>>, row: int, col: int, withBottom: bool)
    requires n > 0 && Square(g, n) && InGrid(n, row, col)
    ensures JoinsSite(n, g, Encode(n, row, col), withBottom, Unions(n, g, row, col, withBottom))
  {
    var site := Encode(n, row, col);
    var ab := ConnectAboveAndBeside(n, g, row, col);
    if row != 0 {
      var a := JoinIfOpen(n, g, site, row - 1, col);
      var b := if col != 0 then JoinIfOpen(n, g, site, row, col - 1) else [];
      var c := if col != n - 1 then JoinIfOpen(n, g, site, row, col + 1) else [];
      JoinIfOpenJoins(n, g, site, row - 1, col);
      if col != 0 {
        JoinIfOpenJoins(n, g, site, row, col - 1);
      }
      if col != n - 1 {
        JoinIfOpenJoins(n, g, site, row, col + 1);
      }
      JoinsSiteAppend(n, g, site, withBottom, a, b);
      JoinsSiteAppend(n, g, site, withBottom, a + b, c);
    }
    if row != n - 1 && g[row + 1][col] {
      JoinIfOpenJoins(n, g, site, row + 1, col);
    }
    JoinsSiteAppend(n, g, site, withBottom, ab, ConnectBelow(n, g, row, col, withBottom));
  }

  /** The unions of `open` keep uf2 finer than uf1. */
  lemma UnionsRefine(f2: QU.Forest, f1: QU.Forest, n: int, g: seq<seq<bool>>, row: int, col: int)
    requires n > 0 && Square(g, n) && InGrid(n, row, col)
    requires QU.Valid(f2) && QU.Valid(f1) && |f2.parent| == n * n + 2 && |f1.parent| == n * n + 2
    requires QU.Refines(f2, f1)
    ensures QU.Valid(QU.UnionAll(f2, Unions(n, g, row, col, false)))
    ensures QU.Valid(QU.UnionAll(f1, Unions(n, g, row, col, true)))
    ensures QU.Refines(QU.UnionAll(f2, Unions(n, g, row, col, false)), QU.UnionAll(f1, Unions(n, g, row, col, true)))
  {
    var x := Encode(n, row, col);
    var ps, bs := Unions(n, g, row, col, false), if row == n - 1 then [(x, VirtualBottom(n))] else [];
    UnionsWithBottom(n, g, row, col);
    QU.UnionAllAppend(f1, ps, bs);
    var h := QU.UnionAll(f1, ps);
    QU.UnionAllRefines(f1, ps);
    QU.UnionAllRefines(h, bs);
    QU.UnionAllRefines(f2, ps);
    QU.UnionAllKeepsRefines(f2, f1, ps);
    QU.RefinesTrans(QU.UnionAll(f2, ps), h, QU.UnionAll(h, bs));
  }

  /** The unions of `open` in uf2 never name the virtual bottom. */
  lemma UnionsKeepBottomAlone(f: QU.Forest, n: int, g: seq<seq<bool>>, row: int, col: int)
    requires n > 0 && Square(g, n) && InGrid(n, row, col) && g[row][col]
    requires QU.Valid(f) && |f.parent| == n * n + 2 && QU.Isolated(f, VirtualBottom(n))
    ensures QU.Isolated(QU.UnionAll(f, Unions(n, g, row, col, false)), VirtualBottom(n))
  {
    var ps := Unions(n, g, row, col, false);
    OpenSiteIsJoinable(n, g, row, col);
    UnionsJoinSite(n, g, row, col, false);
    forall i | 0 <= i < |ps| ensures ps[i].0 != VirtualBottom(n) && ps[i].1 != VirtualBottom(n) {
    }
    QU.UnionAllKeepsIsolated(f, ps, VirtualBottom(n));
  }

  /** The unions of `open` never name a blocked site. */
  lemma UnionsKeepBlockedAlone(f: QU.Forest, n: int, g: seq<seq<bool>>, row: int, col: int, withBottom: bool, row': int, col': int)
    requires n > 0 && Square(g, n) && InGrid(n, row, col) && g[row][col]
    requires InGrid(n, row', col') && !g[row'][col']
    requires QU.Valid(f) && |f.parent| == n * n + 2 && QU.Isolated(f, Encode(n, row', col'))
    ensures QU.Isolated(QU.UnionAll(f, Unions(n, g, row, col, withBottom)), Encode(n, row', col'))
  {
    var ps, e := Unions(n, g, row, col, withBottom), Encode(n, row', col');
    OpenSiteIsJoinable(n, g, row, col);
    UnionsJoinSite(n, g, row, col, withBottom);
    JoinableIsNotBlocked(n, g, Encode(n, row, col), row', col');
    forall i | 0 <= i < |ps| ensures ps[i].0 != e && ps[i].1 != e {
      if Joinable(n, g, ps[i].1) {
        JoinableIsNotBlocked(n, g, ps[i].1, row', col');
      }
    }
    QU.UnionAllKeepsIsolated(f, ps, e);
  }

  /** Opening a blocked site keeps the structures linked. */
  lemma OpenSiteLinked(s: System, row: int, col: int)
    requires Linked(s) && InGrid(s.n, row, col) && !s.grid[row][col]
    ensures Linked(OpenSite(s, row, col))
  {
    var n, g := s.n, OpenCell(s.grid, row, col);
    var t := OpenSite(s, row, col);
    UnionsRefine(s.uf2, s.uf1, n, g, row, col);
    UnionsKeepBottomAlone(s.uf2, n, g, row, col);
    forall row', col' | InGrid(n, row', col') && !g[row'][col']
      ensures QU.Isolated(t.uf1, Encode(n, row', col')) && QU.Isolated(t.uf2, Encode(n, row', col'))
    {
      assert !s.grid[row'][col'];
      UnionsKeepBlockedAlone(s.uf1, n, g, row, col, true, row', col');
      UnionsKeepBlockedAlone(s.uf2, n, g, row, col, false, row', col');
    }
  }

  /** Every system `Init` builds satisfies the invariant. */
  lemma InitInv(n: int)
    requires n > 0
    ensures Inv(Init(n).value)
  {
    var s := Init(n).value;
    QU.SingletonsValid(n * n + 2);
    forall k | 0 <= k < n * n + 2 ensures QU.Isolated(s.uf1, k) && QU.Isolated(s.uf2, k) {
    }
  }

  /** `open` keeps the invariant: the counter follows the grid, uf2 stays finer
      than uf1, the virtual bottom stays alone in uf2 and blocked sites stay alone. */
  lemma OpenSiteInv(s: System, row: int, col: int)
    requires Inv(s) && InGrid(s.n, row, col)
    ensures Inv(OpenSite(s, row, col))
  {
    CountOpenCell(s.grid, row, col);
    if !Opened(s, row, col) {
      OpenSiteLinked(s, row, col);
    }
  }

  /** An isolated element is its own root. */
  lemma IsolatedIsRoot(f: QU.Forest, x: int)
    requires QU.Valid(f) && 0 <= x < |f.parent| && QU.Isolated(f, x)
    ensures QU.Find(f, x) == x
  {
    var r := QU.Find(f, x);
    QU.FindFindsRoot(f, x);
    QU.FindFindsRoot(f, r);
    assert QU.Connected(f, r, x);
  }

  /** A blocked site is never full, under either fullness test. */
  lemma BlockedNeverFull(s: System, row: int, col: int)
    requires Inv(s) && InGrid(s.n, row, col) && !s.grid[row][col]
    ensures IsFullAsWritten(s, row, col) == Ok(false)
    ensures IsFull(s, row, col) == Ok(false)
  {
    var site := Encode(s.n, row, col);
    IsolatedIsRoot(s.uf1, site);
    IsolatedIsRoot(s.uf2, site);
    assert !QU.Connected(s.uf1, VirtualTop, site);
    assert !QU.Connected(s.uf2, VirtualTop, site);
  }

  /** Opening twice is opening once: after the first call the site is open,
      and opening an open site changes nothing. */
  lemma OpenSiteIdempotent(s: System, row: int, col: int)
    requires Shaped(s) && InGrid(s.n, row, col)
    ensures Opened(OpenSite(s, row, col), row, col)
    ensures OpenSite(OpenSite(s, row, col), row, col) == OpenSite(s, row, col)
  {
  }

  /** The counter of a reachable system lies between 0 and n*n. */
  lemma OpenSitesBound(s: System)
    requires Inv(s)
    ensures 0 <= NumberOfOpenSites(s) <= s.n * s.n
  {
    CountOpenBound(s.grid, s.n);
  }
}
