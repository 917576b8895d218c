/**
 * Sequences of `open` calls made by a client, the facts every reachable
 * system has, and three concrete runs: a single-site grid that percolates,
 * and the two runs on which the source's `isFull` and the intended fullness
 * disagree (in both directions).
 */
module Scenarios {
  import opened Grid
  import opened PercolationModel
  import QU = QuickUnion
  import Flow

  /** The calls `open(row, col)` in order; the first out-of-range call
      raises its error and ends the run. */
  function Replay(s: System, opens: seq<(int, int)>): (r: Result<System>)
    requires Shaped(s)
    ensures r.Ok? ==> Shaped(r.value) && r.value.n == s.n
    ensures r.Err? <==> exists i :: 0 <= i < |opens| && !InGrid(s.n, opens[i].0, opens[i].1)
    ensures r.Err? ==> r.error == OutOfRange
    decreases |opens|
  {
    if opens == [] then Ok(s)
    else
      match Open(s, opens[0].0, opens[0].1)
      case Err(e) => Err(e)
      case Ok(t) =>
        var r := Replay(t, opens[1..]);
        assert forall i :: 0 <= i < |opens[1..]| ==> opens[1..][i] == opens[i + 1];
        r
  }

  /** Every run keeps the invariants and the path meaning of both
      structures, never closes a site and never lowers the count. */
  lemma {:induction false} ReplayKeeps(s: System, opens: seq<(int, int)>)
    requires Inv(s) && Flow.Faithful(s)
    ensures var r := Replay(s, opens);
      r.Ok? ==> Inv(r.value) && Flow.Faithful(r.value) && s.openSites <= r.value.openSites
    ensures var r := Replay(s, opens);
      r.Ok? ==> forall row, col :: InGrid(s.n, row, col) && s.grid[row][col] ==> r.value.grid[row][col]
    decreases |opens|
  {
    if opens != [] && InGrid(s.n, opens[0].0, opens[0].1) {
      var (row, col) := opens[0];
      var t := OpenSite(s, row, col);
      OpenSiteInv(s, row, col);
      Flow.OpenSiteFaithful(s, row, col);
      ReplayKeeps(t, opens[1..]);
    }
  }

  /** Every system a client can reach from a new grid satisfies the invariants. */
  lemma Reachable(n: int, opens: seq<(int, int)>)
    requires n > 0
    ensures var r := Replay(Init(n).value, opens);
      r.Ok? ==> Inv(r.value) && Flow.Faithful(r.value) && 0 <= r.value.openSites <= n * n
  {
    InitInv(n);
    Flow.InitFaithful(n);
    ReplayKeeps(Init(n).value, opens);
    var r := Replay(Init(n).value, opens);
    if r.Ok? {
      OpenSitesBound(r.value);
    }
  }

  /** Running `first` and then `rest` is running `first + rest`. */
  lemma {:induction false} ReplayAppend(s: System, first: seq<(int, int)>, rest: seq<(int, int)>)
    requires Shaped(s)
    ensures Replay(s, first + rest) ==
      match Replay(s, first)
      case Err(e) => Err(e)
      case Ok(t) => Replay(t, rest)
    decreases |first|
  {
    if first == [] {
      assert first + rest == rest;
    } else {
      assert (first + rest)[0] == first[0];
      assert (first + rest)[1..] == first[1..] + rest;
      if InGrid(s.n, first[0].0, first[0].1) {
        ReplayAppend(OpenSite(s, first[0].0, first[0].1), first[1..], rest);
      }
    }
  }

  /** A run never closes an open site. */
  lemma {:induction false} ReplayKeepsOpen(s: System, opens: seq<(int, int)>, row: int, col: int)
    requires Shaped(s) && InGrid(s.n, row, col) && Opened(s, row, col)
    ensures Replay(s, opens).Ok? ==> Opened(Replay(s, opens).value, row, col)
    decreases |opens|
  {
    if opens != [] && InGrid(s.n, opens[0].0, opens[0].1) {
      ReplayKeepsOpen(OpenSite(s, opens[0].0, opens[0].1), opens[1..], row, col);
    }
  }

  /** A run that starts with an in-grid call opens that site and goes on. */
  lemma ReplayFirst(s: System, row: int, col: int, rest: seq<(int, int)>)
    requires Shaped(s) && InGrid(s.n, row, col)
    ensures Replay(s, [(row, col)] + rest) == Replay(OpenSite(s, row, col), rest)
  {
    assert ([(row, col)] + rest)[0] == (row, col);
    assert ([(row, col)] + rest)[1..] == rest;
  }

  /** Once a run has opened a site, opening it again, straight away or after
      any further calls, leaves the whole system unchanged: grid, counter and
      both union-find structures. */
  lemma ReopenChangesNothing(s: System, before: seq<(int, int)>, row: int, col: int, between: seq<(int, int)>)
    requires Shaped(s)
    ensures var r := Replay(s, before + ([(row, col)] + between));
      r.Ok? ==> Replay(s, before + ([(row, col)] + between) + [(row, col)]) == r
  {
    var run := before + ([(row, col)] + between);
    var r := Replay(s, run);
    if r.Ok? {
      assert run[|before|] == (row, col);
      assert InGrid(s.n, row, col);
      ReplayAppend(s, before, [(row, col)] + between);
      var a := Replay(s, before).value;
      ReplayFirst(a, row, col, between);
      var b := OpenSite(a, row, col);
      assert Opened(b, row, col);
      ReplayKeepsOpen(b, between, row, col);
      var t := r.value;
      assert Opened(t, row, col);
      ReplayFirst(t, row, col, []);
      assert [(row, col)] + [] == [(row, col)];
      ReplayAppend(s, run, [(row, col)]);
    }
  }

  // ---------------------------------------------------------------------
  // A 1-by-1 grid

  /** Opening the only site of a 1-by-1 grid opens it. */
  lemma OneByOneGrid()
    ensures Replay(Init(1).value, [(0, 0)]).Ok?
    ensures Replay(Init(1).value, [(0, 0)]).value.grid == [[true]]
  {
    assert Blocked(1) == [[false]] by {
      assert Blocked(1)[0] == [false];
    }
    assert OpenCell([[false]], 0, 0)[0] == [true];
    assert [(0, 0)][1..] == [];
  }

  /** On a 1-by-1 grid, opening the only site makes the system percolate. */
  lemma SingleSitePercolates()
    ensures Replay(Init(1).value, [(0, 0)]).Ok?
    ensures Percolates(Replay(Init(1).value, [(0, 0)]).value)
  {
    OneByOneGrid();
    Reachable(1, [(0, 0)]);
    var s := Replay(Init(1).value, [(0, 0)]).value;
    var w := [VirtualTop, 1, VirtualBottom(1)];
    assert Flow.Link(1, s.grid, true, VirtualTop, 1);
    assert Flow.Link(1, s.grid, true, VirtualBottom(1), 1);
    assert Flow.Walk(1, s.grid, true, w);
    Flow.PercolatesMeansPath(s);
  }

  /** f with root l hung under root w, the link `Union` makes. */
  function Hang(f: QU.Forest, l: int, w: int): (g: QU.Forest)
    requires QU.Closed(f) && 0 <= l < |f.parent| && 0 <= w < |f.parent|
    ensures QU.Closed(g) && |g.parent| == |f.parent|
  {
    QU.Forest(f.parent[l := w], f.size[w := f.size[w] + f.size[l]])
  }

  // ---------------------------------------------------------------------
  // A 2-by-2 grid: the source misses a full site.  Elements: 0 the virtual
  // top, 1 .. 4 the sites row by row, 5 the virtual bottom.

  /** The system after the first k calls of open(1, 0), open(1, 1), open(0, 0). */
  function TwoByTwo(k: nat): (s: System)
    requires k <= 3
    ensures Shaped(s) && s.n == 2
  {
    var f := QU.Singletons(6);
    if k == 0 then
      System(2, Blocked(2), 0, f, f)
    else if k == 1 then
      System(2, OpenCell(Blocked(2), 1, 0), 1, Hang(f, 5, 3), f)
    else if k == 2 then
      System(2, OpenCell(OpenCell(Blocked(2), 1, 0), 1, 1), 2, Hang(Hang(f, 5, 3), 4, 3), Hang(f, 3, 4))
    else
      System(2, OpenCell(OpenCell(OpenCell(Blocked(2), 1, 0), 1, 1), 0, 0), 3,
        Hang(Hang(Hang(Hang(f, 5, 3), 4, 3), 0, 1), 1, 3), Hang(Hang(Hang(f, 3, 4), 0, 1), 4, 1))
  }

  /** open(1, 0), element 3: uf1 joins it to the virtual bottom, uf2 joins nothing. */
  lemma TwoByTwoFirst()
    ensures OpenSite(TwoByTwo(0), 1, 0) == TwoByTwo(1)
  {
    var s := TwoByTwo(0);
    var g := TwoByTwo(1).grid;
    assert Unions(2, g, 1, 0, true) == [(3, 5)];
    assert Unions(2, g, 1, 0, false) == [];
    QU.UnionAllSingle(s.uf1, 3, 5);
    assert QU.Find(s.uf1, 3) == 3 && QU.Find(s.uf1, 5) == 5;
  }

  /** open(1, 1), element 4: both structures join it to its open left
      neighbour 3; in uf1 the link to the bottom then changes nothing. */
  lemma TwoByTwoSecond()
    ensures OpenSite(TwoByTwo(1), 1, 1) == TwoByTwo(2)
  {
    var s := TwoByTwo(1);
    var g := TwoByTwo(2).grid;
    assert Unions(2, g, 1, 1, true) == [(4, 3), (4, 5)];
    assert Unions(2, g, 1, 1, false) == [(4, 3)];
    assert QU.Find(s.uf1, 4) == 4 && QU.Find(s.uf1, 3) == 3;
    var f1 := QU.Union(s.uf1, 4, 3);
    assert f1 == Hang(s.uf1, 4, 3);
    assert QU.Find(f1, 4) == 3 && QU.Find(f1, 5) == 3;
    assert [(4, 3), (4, 5)][1..] == [(4, 5)];
    QU.UnionAllSingle(f1, 4, 5);
    QU.UnionAllSingle(s.uf2, 4, 3);
    assert QU.Find(s.uf2, 4) == 4 && QU.Find(s.uf2, 3) == 3;
  }

  /** open(0, 0), element 1: both structures join it to the virtual top and
      then to its open neighbour 3 below.  In uf1 the tree of 1 is smaller and
      hangs under 3; in uf2 the sizes tie and the tree of 3 hangs under 1. */
  lemma TwoByTwoThird()
    ensures OpenSite(TwoByTwo(2), 0, 0) == TwoByTwo(3)
  {
    var s := TwoByTwo(2);
    var g := TwoByTwo(3).grid;
    assert Unions(2, g, 0, 0, true) == [(1, 0), (1, 3)];
    assert Unions(2, g, 0, 0, false) == [(1, 0), (1, 3)];
    assert [(1, 0), (1, 3)][1..] == [(1, 3)];
    assert QU.Find(s.uf1, 1) == 1 && QU.Find(s.uf1, 0) == 0;
    var f1 := QU.Union(s.uf1, 1, 0);
    assert f1 == Hang(s.uf1, 0, 1);
    assert QU.Find(f1, 1) == 1 && QU.Find(f1, 3) == 3;
    QU.UnionAllSingle(f1, 1, 3);
    assert QU.Find(s.uf2, 1) == 1 && QU.Find(s.uf2, 0) == 0;
    var f2 := QU.Union(s.uf2, 1, 0);
    assert f2 == Hang(s.uf2, 0, 1);
    assert QU.Find(f2, 1) == 1 && QU.Find(f2, 3) == 4;
    QU.UnionAllSingle(f2, 1, 3);
  }

  /** The run from a new grid ends in `TwoByTwo(3)`. */
  lemma TwoByTwoRun()
    ensures Replay(Init(2).value, [(1, 0), (1, 1), (0, 0)]) == Ok(TwoByTwo(3))
  {
    TwoByTwoFirst();
    TwoByTwoSecond();
    TwoByTwoThird();
    assert [(1, 0), (1, 1), (0, 0)][1..] == [(1, 1), (0, 0)];
    assert [(1, 1), (0, 0)][1..] == [(0, 0)];
  }

  /** The source's `isFull(0, 0)` answers false for an open top-row site,
      which is full: in uf2 the site's root is 1, in uf1 the top's root is 3. */
  lemma MissedFullSite()
    ensures Replay(Init(2).value, [(1, 0), (1, 1), (0, 0)]) == Ok(TwoByTwo(3))
    ensures IsFullAsWritten(TwoByTwo(3), 0, 0) == Ok(false)
    ensures IsFull(TwoByTwo(3), 0, 0) == Ok(true)
    ensures Flow.Path(2, TwoByTwo(3).grid, false, Encode(2, 0, 0), VirtualTop)
  {
    TwoByTwoRun();
    TwoByTwoRoots();
    Reachable(2, [(1, 0), (1, 1), (0, 0)]);
    Flow.FullMeansPath(TwoByTwo(3), 0, 0);
  }

  /** In uf2 the site 1 and the top 0 have root 1; in uf1 the top has root 3. */
  lemma TwoByTwoRoots()
    ensures IsFullAsWritten(TwoByTwo(3), 0, 0) == Ok(false)
    ensures IsFull(TwoByTwo(3), 0, 0) == Ok(true)
  {
    var s := TwoByTwo(3);
    assert QU.Find(s.uf2, 1) == 1 && QU.Find(s.uf2, 0) == 1;
    assert QU.Find(s.uf1, 0) == 3;
  }

  // ---------------------------------------------------------------------
  // A 3-by-3 grid: the source reports backwash.  Elements: 0 the virtual
  // top, 1 .. 9 the sites row by row, 10 the virtual bottom.

  /** The system after the first k calls of open(2, 0), open(2, 2), open(1, 2), open(0, 2). */
  function ThreeByThree(k: nat): (s: System)
    requires k <= 4
    ensures Shaped(s) && s.n == 3
  {
    var f := QU.Singletons(11);
    var g1 := OpenCell(Blocked(3), 2, 0);
    var g2 := OpenCell(g1, 2, 2);
    var g3 := OpenCell(g2, 1, 2);
    if k == 0 then
      System(3, Blocked(3), 0, f, f)
    else if k == 1 then
      System(3, g1, 1, Hang(f, 10, 7), f)
    else if k == 2 then
      System(3, g2, 2, Hang(Hang(f, 10, 7), 9, 7), f)
    else if k == 3 then
      System(3, g3, 3, Hang(Hang(Hang(f, 10, 7), 9, 7), 6, 7), Hang(f, 9, 6))
    else
      System(3, OpenCell(g3, 0, 2), 4,
        Hang(Hang(Hang(Hang(Hang(f, 10, 7), 9, 7), 6, 7), 0, 3), 3, 7), Hang(Hang(Hang(f, 9, 6), 0, 3), 6, 3))
  }

  /** open(2, 0), element 7: uf1 joins it to the virtual bottom. */
  lemma ThreeByThreeFirst()
    ensures OpenSite(ThreeByThree(0), 2, 0) == ThreeByThree(1)
  {
    var s := ThreeByThree(0);
    var g := ThreeByThree(1).grid;
    assert Unions(3, g, 2, 0, true) == [(7, 10)];
    assert Unions(3, g, 2, 0, false) == [];
    QU.UnionAllSingle(s.uf1, 7, 10);
    assert QU.Find(s.uf1, 7) == 7 && QU.Find(s.uf1, 10) == 10;
  }

  /** open(2, 2), element 9: uf1 hangs it under the bottom's root 7. */
  lemma ThreeByThreeSecond()
    ensures OpenSite(ThreeByThree(1), 2, 2) == ThreeByThree(2)
  {
    var s := ThreeByThree(1);
    var g := ThreeByThree(2).grid;
    assert Unions(3, g, 2, 2, true) == [(9, 10)];
    assert Unions(3, g, 2, 2, false) == [];
    QU.UnionAllSingle(s.uf1, 9, 10);
    assert QU.Find(s.uf1, 9) == 9 && QU.Find(s.uf1, 10) == 7;
  }

  /** open(1, 2), element 6: both structures join it to 9 below. */
  lemma ThreeByThreeThird()
    ensures OpenSite(ThreeByThree(2), 1, 2) == ThreeByThree(3)
  {
    var s := ThreeByThree(2);
    var g := ThreeByThree(3).grid;
    assert Unions(3, g, 1, 2, true) == [(6, 9)];
    assert Unions(3, g, 1, 2, false) == [(6, 9)];
    QU.UnionAllSingle(s.uf1, 6, 9);
    assert QU.Find(s.uf1, 6) == 6 && QU.Find(s.uf1, 9) == 7;
    QU.UnionAllSingle(s.uf2, 6, 9);
    assert QU.Find(s.uf2, 6) == 6 && QU.Find(s.uf2, 9) == 9;
  }

  /** In uf1, 3 and the top tie and the top hangs under 3; then the tree of 3
      (size 2) hangs under 7 (size 4). */
  lemma ThreeByThreeFourthInUf1()
    ensures QU.UnionAll(ThreeByThree(3).uf1, [(3, 0), (3, 6)]) == ThreeByThree(4).uf1
  {
    var f := ThreeByThree(3).uf1;
    assert [(3, 0), (3, 6)][1..] == [(3, 6)];
    assert QU.Find(f, 3) == 3 && QU.Find(f, 0) == 0;
    var f1 := QU.Union(f, 3, 0);
    assert f1 == Hang(f, 0, 3);
    assert QU.Find(f1, 3) == 3 && QU.Find(f1, 6) == 7;
    QU.UnionAllSingle(f1, 3, 6);
  }

  /** In uf2, the top hangs under 3; then the trees of 3 and 6 tie (size 2)
      and the tree of 6 hangs under 3. */
  lemma ThreeByThreeFourthInUf2()
    ensures QU.UnionAll(ThreeByThree(3).uf2, [(3, 0), (3, 6)]) == ThreeByThree(4).uf2
  {
    var f := ThreeByThree(3).uf2;
    assert [(3, 0), (3, 6)][1..] == [(3, 6)];
    assert QU.Find(f, 3) == 3 && QU.Find(f, 0) == 0;
    var f2 := QU.Union(f, 3, 0);
    assert f2 == Hang(f, 0, 3);
    assert QU.Find(f2, 3) == 3 && QU.Find(f2, 6) == 6;
    QU.UnionAllSingle(f2, 3, 6);
  }

  /** open(0, 2), element 3: both structures join it to the top and to 6 below. */
  lemma ThreeByThreeFourth()
    ensures OpenSite(ThreeByThree(3), 0, 2) == ThreeByThree(4)
  {
    var g := ThreeByThree(4).grid;
    assert Unions(3, g, 0, 2, true) == [(3, 0), (3, 6)];
    assert Unions(3, g, 0, 2, false) == [(3, 0), (3, 6)];
    ThreeByThreeFourthInUf1();
    ThreeByThreeFourthInUf2();
  }

  /** The last two calls of the run. */
  lemma ThreeByThreeRunEnd()
    ensures Replay(ThreeByThree(2), [(1, 2), (0, 2)]) == Ok(ThreeByThree(4))
  {
    ThreeByThreeThird();
    ThreeByThreeFourth();
    assert [(1, 2), (0, 2)][1..] == [(0, 2)];
  }

  /** The run from a new grid ends in `ThreeByThree(4)`. */
  lemma ThreeByThreeRun()
    ensures Replay(Init(3).value, [(2, 0), (2, 2), (1, 2), (0, 2)]) == Ok(ThreeByThree(4))
  {
    ThreeByThreeFirst();
    ThreeByThreeSecond();
    ThreeByThreeRunEnd();
    assert [(2, 0), (2, 2), (1, 2), (0, 2)][1..] == [(2, 2), (1, 2), (0, 2)];
    assert [(2, 2), (1, 2), (0, 2)][1..] == [(1, 2), (0, 2)];
  }

  /** In uf1 the top and the bottom both have root 7. */
  lemma ThreeByThreeTopRoot()
    ensures QU.Find(ThreeByThree(4).uf1, 0) == 7
    ensures Percolates(ThreeByThree(4))
  {
    var s := ThreeByThree(4);
    assert QU.Find(s.uf1, 10) == 7;
  }

  /** In uf2 site 7 is its own root and the top's root is 3. */
  lemma ThreeByThreeRoots()
    ensures IsFullAsWritten(ThreeByThree(4), 2, 0) == Ok(true)
    ensures IsFull(ThreeByThree(4), 2, 0) == Ok(false)
  {
    var s := ThreeByThree(4);
    ThreeByThreeTopRoot();
    assert QU.Find(s.uf2, 7) == 7 && QU.Find(s.uf2, 0) == 3;
  }

  /** Once the system percolates, the source's `isFull(2, 0)` answers true for
      a site that the top reaches only through the bottom row. */
  lemma ReportedBackwash()
    ensures Replay(Init(3).value, [(2, 0), (2, 2), (1, 2), (0, 2)]) == Ok(ThreeByThree(4))
    ensures Percolates(ThreeByThree(4))
    ensures IsFullAsWritten(ThreeByThree(4), 2, 0) == Ok(true)
    ensures IsFull(ThreeByThree(4), 2, 0) == Ok(false)
    ensures !Flow.Path(3, ThreeByThree(4).grid, false, Encode(3, 2, 0), VirtualTop)
    ensures Flow.Path(3, ThreeByThree(4).grid, true, Encode(3, 2, 0), VirtualTop)
  {
    ThreeByThreeRun();
    ThreeByThreeTopRoot();
    ThreeByThreeRoots();
    Reachable(3, [(2, 0), (2, 2), (1, 2), (0, 2)]);
    Flow.FullMeansPath(ThreeByThree(4), 2, 0);
    Flow.FullAsWrittenThroughBottom(ThreeByThree(4), 2, 0);
  }
}
