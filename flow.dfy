/**
 * What the two union-find structures mean.  Water passes between open sites
 * that are neighbours in a row or a column, from the virtual top into every
 * open site of the first row and, in uf1 only, from the virtual bottom into
 * every open site of the last row.  Two elements are connected in uf2 exactly
 * when a path of such steps without the virtual bottom joins them, and in uf1
 * exactly when a path that may use the virtual bottom does.  So a site is
 * full exactly when an open path leads to it from the top row, and the system
 * percolates exactly when an open path crosses the grid.
 */
module Flow {
  import opened Grid
  import opened PercolationModel
  import QU = QuickUnion

  /** Element a is an open site of g. */
  predicate OpenAt(n: int, g: seq<seq<bool>>, a: int)
    requires n > 0 && Square(g, n)
  {
    1 <= a <= n * n && g[Decode(n, a).0][Decode(n, a).1]
  }

  /** Sites a and b are one apart in a row or in a column. */
  predicate Adjacent(n: int, a: int, b: int)
    requires n > 0
  {
    var (r, c) := Decode(n, a);
    var (r', c') := Decode(n, b);
    (r == r' && (c - c' == 1 || c' - c == 1)) || (c == c' && (r - r' == 1 || r' - r == 1))
  }

  /** Water passes from a into the open site b. */
  predicate Link(n: int, g: seq<seq<bool>>, withBottom: bool, a: int, b: int)
    requires n > 0 && Square(g, n)
  {
    OpenAt(n, g, b) &&
    ((OpenAt(n, g, a) && Adjacent(n, a, b)) ||
     (a == VirtualTop && Decode(n, b).0 == 0) ||
     (withBottom && a == VirtualBottom(n) && Decode(n, b).0 == n - 1))
  }

  predicate Edge(n: int, g: seq<seq<bool>>, withBottom: bool, a: int, b: int)
    requires n > 0 && Square(g, n)
  {
    Link(n, g, withBottom, a, b) || Link(n, g, withBottom, b, a)
  }

  /** w is a sequence of elements, each step between them an edge. */
  predicate Walk(n: int, g: seq<seq<bool>>, withBottom: bool, w: seq<int>)
    requires n > 0 && Square(g, n)
  {
    |w| >= 1 &&
    (forall i :: 0 <= i < |w| ==> 0 <= w[i] < n * n + 2) &&
    (forall i :: 0 <= i < |w| - 1 ==> Edge(n, g, withBottom, w[i], w[i + 1]))
  }

  ghost predicate Path(n: int, g: seq<seq<bool>>, withBottom: bool, a: int, b: int)
    requires n > 0 && Square(g, n)
  {
    exists w :: Walk(n, g, withBottom, w) && w[0] == a && w[|w| - 1] == b
  }

  lemma PathStays(n: int, g: seq<seq<bool>>, withBottom: bool, a: int)
    requires n > 0 && Square(g, n) && 0 <= a < n * n + 2
    ensures Path(n, g, withBottom, a, a)
  {
    assert Walk(n, g, withBottom, [a]);
  }

  lemma PathStep(n: int, g: seq<seq<bool>>, withBottom: bool, a: int, b: int)
    requires n > 0 && Square(g, n) && Edge(n, g, withBottom, a, b)
    ensures Path(n, g, withBottom, a, b)
  {
    assert Walk(n, g, withBottom, [a, b]);
  }

  /** A path read backwards is a path. */
  lemma PathBack(n: int, g: seq<seq<bool>>, withBottom: bool, a: int, b: int)
    requires n > 0 && Square(g, n) && Path(n, g, withBottom, a, b)
    ensures Path(n, g, withBottom, b, a)
  {
    var w :| Walk(n, g, withBottom, w) && w[0] == a && w[|w| - 1] == b;
    var v := seq(|w|, i requires 0 <= i < |w| => w[|w| - 1 - i]);
    forall i | 0 <= i < |v| - 1 ensures Edge(n, g, withBottom, v[i], v[i + 1]) {
      assert Edge(n, g, withBottom, w[|w| - 2 - i], w[|w| - 1 - i]);
    }
    assert Walk(n, g, withBottom, v);
  }

  /** Two paths that meet make one. */
  lemma PathJoin(n: int, g: seq<seq<bool>>, withBottom: bool, a: int, b: int, c: int)
    requires n > 0 && Square(g, n) && Path(n, g, withBottom, a, b) && Path(n, g, withBottom, b, c)
    ensures Path(n, g, withBottom, a, c)
  {
    var w :| Walk(n, g, withBottom, w) && w[0] == a && w[|w| - 1] == b;
    var v :| Walk(n, g, withBottom, v) && v[0] == b && v[|v| - 1] == c;
    var u := w + v[1..];
    forall i | 0 <= i < |u| - 1 ensures Edge(n, g, withBottom, u[i], u[i + 1]) {
      if i < |w| - 1 {
        assert Edge(n, g, withBottom, w[i], w[i + 1]);
      } else {
        assert Edge(n, g, withBottom, v[i - |w| + 1], v[i - |w| + 2]);
      }
    }
    assert Walk(n, g, withBottom, u);
  }

  lemma OpenAtWidens(n: int, g: seq<seq<bool>>, row: int, col: int, a: int)
    requires n > 0 && Square(g, n) && InGrid(n, row, col) && OpenAt(n, g, a)
    ensures Square(OpenCell(g, row, col), n) && OpenAt(n, OpenCell(g, row, col), a)
  {
  }

  /** Apart from the opened site, a site is open after `OpenCell` only if it was before. */
  lemma OpenAtNarrows(n: int, g: seq<seq<bool>>, row: int, col: int, a: int)
    requires n > 0 && Square(g, n) && InGrid(n, row, col)
    requires Square(OpenCell(g, row, col), n) && OpenAt(n, OpenCell(g, row, col), a)
    requires a != Encode(n, row, col)
    ensures OpenAt(n, g, a)
  {
  }

  /** Opening a site keeps every path. */
  lemma PathWidens(n: int, g: seq<seq<bool>>, row: int, col: int, withBottom: bool, a: int, b: int)
    requires n > 0 && Square(g, n) && InGrid(n, row, col) && Path(n, g, withBottom, a, b)
    ensures Square(OpenCell(g, row, col), n) && Path(n, OpenCell(g, row, col), withBottom, a, b)
  {
    var g' := OpenCell(g, row, col);
    var w :| Walk(n, g, withBottom, w) && w[0] == a && w[|w| - 1] == b;
    forall i | 0 <= i < |w| - 1 ensures Edge(n, g', withBottom, w[i], w[i + 1]) {
      assert Edge(n, g, withBottom, w[i], w[i + 1]);
      if OpenAt(n, g, w[i]) {
        OpenAtWidens(n, g, row, col, w[i]);
      }
      if OpenAt(n, g, w[i + 1]) {
        OpenAtWidens(n, g, row, col, w[i + 1]);
      }
    }
    assert Walk(n, g', withBottom, w);
  }

  /** An edge of the grid after opening (row, col) that does not touch it was an edge before. */
  lemma EdgeNarrows(n: int, g: seq<seq<bool>>, row: int, col: int, withBottom: bool, a: int, b: int)
    requires n > 0 && Square(g, n) && InGrid(n, row, col)
    requires Square(OpenCell(g, row, col), n) && Edge(n, OpenCell(g, row, col), withBottom, a, b)
    requires a != Encode(n, row, col) && b != Encode(n, row, col)
    ensures Edge(n, g, withBottom, a, b)
  {
    var g' := OpenCell(g, row, col);
    if OpenAt(n, g', a) {
      OpenAtNarrows(n, g, row, col, a);
    }
    if OpenAt(n, g', b) {
      OpenAtNarrows(n, g, row, col, b);
    }
  }

  /** Two open sites one apart in a row or a column are joined by an edge. */
  lemma NeighbourEdge(n: int, g: seq<seq<bool>>, withBottom: bool, row: int, col: int, row': int, col': int)
    requires n > 0 && Square(g, n) && InGrid(n, row, col) && InGrid(n, row', col')
    requires g[row][col] && g[row'][col']
    requires (row == row' && (col - col' == 1 || col' - col == 1)) || (col == col' && (row - row' == 1 || row' - row == 1))
    ensures Edge(n, g, withBottom, Encode(n, row, col), Encode(n, row', col'))
  {
    DecodeEncode(n, row, col);
    DecodeEncode(n, row', col');
  }

  // ---------------------------------------------------------------------
  // A structure tracks the paths of a grid

  /** Every connection of f is a path of g. */
  ghost predicate Sound(f: QU.Forest, n: int, g: seq<seq<bool>>, withBottom: bool)
    requires n > 0 && Square(g, n) && QU.Closed(f) && |f.parent| == n * n + 2
  {
    forall a, b :: 0 <= a < n * n + 2 && 0 <= b < n * n + 2 && QU.Connected(f, a, b) ==>
      Path(n, g, withBottom, a, b)
  }

  /** Every edge of g is a connection of f. */
  ghost predicate Complete(f: QU.Forest, n: int, g: seq<seq<bool>>, withBottom: bool)
    requires n > 0 && Square(g, n) && QU.Closed(f) && |f.parent| == n * n + 2
  {
    forall a, b :: 0 <= a < n * n + 2 && 0 <= b < n * n + 2 && Edge(n, g, withBottom, a, b) ==>
      QU.Connected(f, a, b)
  }

  ghost predicate Tracks(f: QU.Forest, n: int, g: seq<seq<bool>>, withBottom: bool)
    requires n > 0 && Square(g, n) && QU.Closed(f) && |f.parent| == n * n + 2
  {
    Sound(f, n, g, withBottom) && Complete(f, n, g, withBottom)
  }

  /** A union along a path keeps every connection a path. */
  lemma UnionSound(f: QU.Forest, n: int, g: seq<seq<bool>>, withBottom: bool, p: int, q: int)
    requires n > 0 && Square(g, n) && QU.Valid(f) && |f.parent| == n * n + 2
    requires 0 <= p < n * n + 2 && 0 <= q < n * n + 2
    requires Sound(f, n, g, withBottom) && Path(n, g, withBottom, p, q)
    ensures Sound(QU.Union(f, p, q), n, g, withBottom)
  {
    var h := QU.Union(f, p, q);
    forall a, b | 0 <= a < n * n + 2 && 0 <= b < n * n + 2 && QU.Connected(h, a, b)
      ensures Path(n, g, withBottom, a, b)
    {
      QU.UnionConnects(f, p, q, a, b);
      if QU.Connected(f, a, b) {
      } else if QU.Connected(f, a, p) && QU.Connected(f, b, q) {
        assert QU.Connected(f, q, b);
        PathJoin(n, g, withBottom, a, p, q);
        PathJoin(n, g, withBottom, a, q, b);
      } else {
        assert QU.Connected(f, a, q) && QU.Connected(f, p, b);
        PathBack(n, g, withBottom, p, q);
        PathJoin(n, g, withBottom, a, q, p);
        PathJoin(n, g, withBottom, a, p, b);
      }
    }
  }

  lemma {:induction false} WalkJoined(f: QU.Forest, n: int, g: seq<seq<bool>>, withBottom: bool, w: seq<int>)
    requires n > 0 && Square(g, n) && QU.Closed(f) && |f.parent| == n * n + 2
    requires Complete(f, n, g, withBottom) && Walk(n, g, withBottom, w)
    ensures QU.Connected(f, w[0], w[|w| - 1])
  {
    if |w| > 1 {
      var v := w[..|w| - 1];
      assert Walk(n, g, withBottom, v) by {
        forall i | 0 <= i < |v| - 1 ensures Edge(n, g, withBottom, v[i], v[i + 1]) {
          assert Edge(n, g, withBottom, w[i], w[i + 1]);
        }
      }
      WalkJoined(f, n, g, withBottom, v);
      assert Edge(n, g, withBottom, w[|w| - 2], w[|w| - 1]);
    }
  }

  /** A structure that tracks g connects exactly the elements g joins by a path. */
  lemma TracksPaths(f: QU.Forest, n: int, g: seq<seq<bool>>, withBottom: bool, a: int, b: int)
    requires n > 0 && Square(g, n) && QU.Closed(f) && |f.parent| == n * n + 2
    requires Tracks(f, n, g, withBottom) && 0 <= a < n * n + 2 && 0 <= b < n * n + 2
    ensures QU.Connected(f, a, b) <==> Path(n, g, withBottom, a, b)
  {
    if Path(n, g, withBottom, a, b) {
      var w :| Walk(n, g, withBottom, w) && w[0] == a && w[|w| - 1] == b;
      WalkJoined(f, n, g, withBottom, w);
    }
  }

  // ---------------------------------------------------------------------
  // The systems `open` builds

  /** uf1 (with the virtual bottom) or uf2 (without it). */
  function Structure(s: System, withBottom: bool): (f: QU.Forest)
    requires Shaped(s)
    ensures QU.Closed(f) && |f.parent| == s.n * s.n + 2
  {
    if withBottom then s.uf1 else s.uf2
  }

  /** uf1 tracks the paths that may use the virtual bottom, uf2 those that do not. */
  ghost predicate Faithful(s: System)
    requires Shaped(s)
  {
    Tracks(s.uf1, s.n, s.grid, true) && Tracks(s.uf2, s.n, s.grid, false)
  }

  lemma InitFaithful(n: int)
    requires n > 0
    ensures Faithful(Init(n).value)
  {
    var s := Init(n).value;
    QU.SingletonsValid(n * n + 2);
    assert forall a :: 1 <= a <= n * n ==> !OpenAt(n, s.grid, a);
    forall withBottom: bool, a, b | 0 <= a < n * n + 2 && 0 <= b < n * n + 2 && QU.Connected(Structure(s, withBottom), a, b)
      ensures Path(n, s.grid, withBottom, a, b)
    {
      PathStays(n, s.grid, withBottom, a);
    }
  }

  /** A run of unions along paths keeps every connection a path. */
  lemma {:induction false} UnionAllSound(f: QU.Forest, n: int, g: seq<seq<bool>>, withBottom: bool, ps: seq<(int, int)>)
    requires n > 0 && Square(g, n) && QU.Valid(f) && |f.parent| == n * n + 2 && QU.Pairs(f, ps)
    requires Sound(f, n, g, withBottom)
    requires forall i :: 0 <= i < |ps| ==> Path(n, g, withBottom, ps[i].0, ps[i].1)
    ensures Sound(QU.UnionAll(f, ps), n, g, withBottom)
    decreases |ps|
  {
    if ps != [] {
      UnionSound(f, n, g, withBottom, ps[0].0, ps[0].1);
      QU.UnionFinds(f, ps[0].0, ps[0].1);
      assert forall i :: 0 <= i < |ps[1..]| ==> ps[1..][i] == ps[i + 1];
      UnionAllSound(QU.Union(f, ps[0].0, ps[0].1), n, g, withBottom, ps[1..]);
    }
  }

  /** Each pair of ps is an edge of g. */
  predicate AllEdges(n: int, g: seq<seq<bool>>, withBottom: bool, ps: seq<(int, int)>)
    requires n > 0 && Square(g, n)
  {
    forall i :: 0 <= i < |ps| ==> 0 <= ps[i].1 && Edge(n, g, withBottom, ps[i].0, ps[i].1)
  }

  lemma AllEdgesAppend(n: int, g: seq<seq<bool>>, withBottom: bool, ps: seq<(int, int)>, qs: seq<(int, int)>)
    requires n > 0 && Square(g, n) && AllEdges(n, g, withBottom, ps) && AllEdges(n, g, withBottom, qs)
    ensures AllEdges(n, g, withBottom, ps + qs)
  {
    assert forall i :: 0 <= i < |ps + qs| ==> (ps + qs)[i] == if i < |ps| then ps[i] else qs[i - |ps|];
  }

  /** The conditional join of an open site with a neighbour runs along an edge. */
  lemma JoinIfOpenIsEdge(n: int, g: seq<seq<bool>>, withBottom: bool, row: int, col: int, row': int, col': int)
    requires n > 0 && Square(g, n) && InGrid(n, row, col) && InGrid(n, row', col') && g[row][col]
    requires (row == row' && (col - col' == 1 || col' - col == 1)) || (col == col' && (row - row' == 1 || row' - row == 1))
    ensures AllEdges(n, g, withBottom, JoinIfOpen(n, g, Encode(n, row, col), row', col'))
  {
    if g[row'][col'] {
      NeighbourEdge(n, g, withBottom, row, col, row', col');
    }
  }

  lemma AboveAndBesideAreEdges(n: int, g: seq<seq<bool>>, withBottom: bool, row: int, col: int)
    requires n > 0 && Square(g, n) && InGrid(n, row, col) && g[row][col]
    ensures AllEdges(n, g, withBottom, ConnectAboveAndBeside(n, g, row, col))
  {
    var x := Encode(n, row, col);
    if row == 0 {
      DecodeEncode(n, row, col);
      assert Link(n, g, withBottom, VirtualTop, x);
    } else {
      var a := JoinIfOpen(n, g, x, row - 1, col);
      var b := if col != 0 then JoinIfOpen(n, g, x, row, col - 1) else [];
      var c := if col != n - 1 then JoinIfOpen(n, g, x, row, col + 1) else [];
      JoinIfOpenIsEdge(n, g, withBottom, row, col, row - 1, col);
      if col != 0 {
        JoinIfOpenIsEdge(n, g, withBottom, row, col, row, col - 1);
      }
      if col != n - 1 {
        JoinIfOpenIsEdge(n, g, withBottom, row, col, row, col + 1);
      }
      AllEdgesAppend(n, g, withBottom, a, b);
      AllEdgesAppend(n, g, withBottom, a + b, c);
    }
  }

  lemma BelowAreEdges(n: int, g: seq<seq<bool>>, withBottom: bool, row: int, col: int)
    requires n > 0 && Square(g, n) && InGrid(n, row, col) && g[row][col]
    ensures AllEdges(n, g, withBottom, ConnectBelow(n, g, row, col, withBottom))
  {
    var x := Encode(n, row, col);
    if row != n - 1 && g[row + 1][col] {
      JoinIfOpenIsEdge(n, g, withBottom, row, col, row + 1, col);
    } else if row == n - 1 && withBottom {
      DecodeEncode(n, row, col);
      assert Link(n, g, withBottom, VirtualBottom(n), x);
    }
  }

  /** Each union `open` makes runs along an edge of the grid. */
  lemma UnionsAreEdges(n: int, g: seq<seq<bool>>, withBottom: bool, row: int, col: int)
    requires n > 0 && Square(g, n) && InGrid(n, row, col) && g[row][col]
    ensures AllEdges(n, g, withBottom, Unions(n, g, row, col, withBottom))
  {
    AboveAndBesideAreEdges(n, g, withBottom, row, col);
    BelowAreEdges(n, g, withBottom, row, col);
    AllEdgesAppend(n, g, withBottom, ConnectAboveAndBeside(n, g, row, col), ConnectBelow(n, g, row, col, withBottom));
  }

  /** Every connection of a structure stays a path once a site is opened. */
  lemma SoundWidens(f: QU.Forest, n: int, g: seq<seq<bool>>, row: int, col: int, withBottom: bool)
    requires n > 0 && Square(g, n) && QU.Closed(f) && |f.parent| == n * n + 2 && InGrid(n, row, col)
    requires Sound(f, n, g, withBottom)
    ensures Square(OpenCell(g, row, col), n) && Sound(f, n, OpenCell(g, row, col), withBottom)
  {
    forall a, b | 0 <= a < n * n + 2 && 0 <= b < n * n + 2 && QU.Connected(f, a, b)
      ensures Path(n, OpenCell(g, row, col), withBottom, a, b)
    {
      PathWidens(n, g, row, col, withBottom, a, b);
    }
  }

  /** A union that `open` makes for the opened site joins it in the new structure. */
  lemma UnionMadeJoins(s: System, row: int, col: int, withBottom: bool, i: int)
    requires Inv(s) && InGrid(s.n, row, col) && !s.grid[row][col]
    requires 0 <= i < |Unions(s.n, OpenCell(s.grid, row, col), row, col, withBottom)|
    ensures var p := Unions(s.n, OpenCell(s.grid, row, col), row, col, withBottom)[i];
      QU.Connected(Structure(OpenSite(s, row, col), withBottom), p.0, p.1)
  {
    var f, ps := Structure(s, withBottom), Unions(s.n, OpenCell(s.grid, row, col), row, col, withBottom);
    assert Structure(OpenSite(s, row, col), withBottom) == QU.UnionAll(f, ps);
    QU.UnionAllRefines(f, ps);
  }

  /** `open` makes a union of the opened site with each open neighbour,
      except with one beside it in the first row. */
  lemma NeighbourUnion(n: int, g: seq<seq<bool>>, withBottom: bool, row: int, col: int, row': int, col': int)
    returns (i: int)
    requires n > 0 && Square(g, n) && InGrid(n, row, col) && InGrid(n, row', col') && g[row'][col']
    requires (row == row' && (col - col' == 1 || col' - col == 1)) || (col == col' && (row - row' == 1 || row' - row == 1))
    requires row != 0 || row' != 0
    ensures 0 <= i < |Unions(n, g, row, col, withBottom)|
    ensures Unions(n, g, row, col, withBottom)[i] == (Encode(n, row, col), Encode(n, row', col'))
  {
    var x, y := Encode(n, row, col), Encode(n, row', col');
    var a, b := ConnectAboveAndBeside(n, g, row, col), ConnectBelow(n, g, row, col, withBottom);
    assert Unions(n, g, row, col, withBottom) == a + b;
    if row' == row + 1 {
      assert b == [(x, y)];
      i := |a|;
    } else {
      var up := JoinIfOpen(n, g, x, row - 1, col);
      var left := if col != 0 then JoinIfOpen(n, g, x, row, col - 1) else [];
      var right := if col != n - 1 then JoinIfOpen(n, g, x, row, col + 1) else [];
      assert a == up + left + right;
      if row' == row - 1 {
        assert up == [(x, y)];
        i := 0;
      } else if col' == col - 1 {
        assert left == [(x, y)];
        i := |up|;
      } else {
        assert right == [(x, y)];
        i := |up| + |left|;
      }
    }
  }

  /** After opening the blocked site x in the first row, an edge from x to an
      open site beside it is a connection, through the virtual top. */
  lemma TopRowEdgeJoined(s: System, col: int, withBottom: bool, col': int)
    requires Inv(s) && InGrid(s.n, 0, col) && !s.grid[0][col] && InGrid(s.n, 0, col') && col != col'
    requires Complete(Structure(s, withBottom), s.n, s.grid, withBottom)
    requires s.grid[0][col']
    ensures QU.Connected(Structure(OpenSite(s, 0, col), withBottom), Encode(s.n, 0, col), Encode(s.n, 0, col'))
  {
    var n, x, y := s.n, Encode(s.n, 0, col), Encode(s.n, 0, col');
    var g, f := OpenCell(s.grid, 0, col), Structure(s, withBottom);
    var ps := Unions(n, g, 0, col, withBottom);
    DecodeEncode(n, 0, col');
    assert Link(n, s.grid, withBottom, VirtualTop, y);
    assert QU.Connected(f, VirtualTop, y);
    assert ps[0] == (x, VirtualTop);
    assert Structure(OpenSite(s, 0, col), withBottom) == QU.UnionAll(f, ps);
    QU.UnionAllRefines(f, ps);
  }

  /** After opening the blocked site x, an edge from x to an open neighbour is a connection. */
  lemma NewSiteEdgeJoined(s: System, row: int, col: int, withBottom: bool, row': int, col': int)
    requires Inv(s) && InGrid(s.n, row, col) && !s.grid[row][col] && InGrid(s.n, row', col')
    requires Complete(Structure(s, withBottom), s.n, s.grid, withBottom)
    requires OpenSite(s, row, col).grid[row'][col']
    requires (row == row' && (col - col' == 1 || col' - col == 1)) || (col == col' && (row - row' == 1 || row' - row == 1))
    ensures QU.Connected(Structure(OpenSite(s, row, col), withBottom), Encode(s.n, row, col), Encode(s.n, row', col'))
  {
    if row == 0 && row' == 0 {
      assert s.grid[row'][col'];
      TopRowEdgeJoined(s, col, withBottom, col');
    } else {
      var i := NeighbourUnion(s.n, OpenCell(s.grid, row, col), withBottom, row, col, row', col');
      UnionMadeJoins(s, row, col, withBottom, i);
    }
  }

  /** After opening the blocked site x, each edge at x is a connection. */
  lemma NewEdgeJoined(s: System, row: int, col: int, withBottom: bool, y: int)
    requires Inv(s) && InGrid(s.n, row, col) && !s.grid[row][col]
    requires Complete(Structure(s, withBottom), s.n, s.grid, withBottom)
    requires 0 <= y < s.n * s.n + 2
    requires Edge(s.n, OpenSite(s, row, col).grid, withBottom, Encode(s.n, row, col), y)
    ensures QU.Connected(Structure(OpenSite(s, row, col), withBottom), Encode(s.n, row, col), y)
  {
    var n, x, g := s.n, Encode(s.n, row, col), OpenCell(s.grid, row, col);
    DecodeEncode(n, row, col);
    if y == VirtualTop {
      assert ConnectAboveAndBeside(n, g, row, col)[0] == (x, y);
      UnionMadeJoins(s, row, col, withBottom, 0);
    } else if y == VirtualBottom(n) {
      var a := ConnectAboveAndBeside(n, g, row, col);
      assert ConnectBelow(n, g, row, col, withBottom) == [(x, y)];
      assert Unions(n, g, row, col, withBottom)[|a|] == (x, y);
      UnionMadeJoins(s, row, col, withBottom, |a|);
    } else {
      assert OpenAt(n, g, y) && Adjacent(n, x, y);
      NewSiteEdgeJoined(s, row, col, withBottom, Decode(n, y).0, Decode(n, y).1);
    }
  }

  /** `open` keeps a structure tracking the paths of the grid. */
  lemma OpenSiteFollows(s: System, row: int, col: int, withBottom: bool)
    requires Inv(s) && InGrid(s.n, row, col)
    requires Tracks(Structure(s, withBottom), s.n, s.grid, withBottom)
    ensures Tracks(Structure(OpenSite(s, row, col), withBottom), s.n, OpenSite(s, row, col).grid, withBottom)
  {
    if !Opened(s, row, col) {
      var n, x, t := s.n, Encode(s.n, row, col), OpenSite(s, row, col);
      var f, ps := Structure(s, withBottom), Unions(n, t.grid, row, col, withBottom);
      assert Structure(t, withBottom) == QU.UnionAll(f, ps);
      QU.UnionAllRefines(f, ps);
      UnionsAreEdges(n, t.grid, withBottom, row, col);
      forall i | 0 <= i < |ps| ensures Path(n, t.grid, withBottom, ps[i].0, ps[i].1) {
        PathStep(n, t.grid, withBottom, ps[i].0, ps[i].1);
      }
      SoundWidens(f, n, s.grid, row, col, withBottom);
      UnionAllSound(f, n, t.grid, withBottom, ps);
      forall a, b | 0 <= a < n * n + 2 && 0 <= b < n * n + 2 && Edge(n, t.grid, withBottom, a, b)
        ensures QU.Connected(Structure(t, withBottom), a, b)
      {
        if a == x {
          NewEdgeJoined(s, row, col, withBottom, b);
        } else if b == x {
          NewEdgeJoined(s, row, col, withBottom, a);
        } else {
          EdgeNarrows(n, s.grid, row, col, withBottom, a, b);
        }
      }
    }
  }

  /** `open` keeps both structures faithful to the grid. */
  lemma OpenSiteFaithful(s: System, row: int, col: int)
    requires Inv(s) && Faithful(s) && InGrid(s.n, row, col)
    ensures Faithful(OpenSite(s, row, col))
  {
    OpenSiteFollows(s, row, col, true);
    OpenSiteFollows(s, row, col, false);
  }

  // ---------------------------------------------------------------------
  // What the queries mean

  /** A site is full exactly when an open path leads to it from the virtual top. */
  lemma FullMeansPath(s: System, row: int, col: int)
    requires Inv(s) && Faithful(s) && InGrid(s.n, row, col)
    ensures IsFull(s, row, col) == Ok(true) <==> Path(s.n, s.grid, false, Encode(s.n, row, col), VirtualTop)
  {
    TracksPaths(s.uf2, s.n, s.grid, false, Encode(s.n, row, col), VirtualTop);
  }

  /** The system percolates exactly when an open path joins the virtual top to the virtual bottom. */
  lemma PercolatesMeansPath(s: System)
    requires Inv(s) && Faithful(s)
    ensures Percolates(s) <==> Path(s.n, s.grid, true, VirtualTop, VirtualBottom(s.n))
  {
    TracksPaths(s.uf1, s.n, s.grid, true, VirtualTop, VirtualBottom(s.n));
  }

  /** Every open site of the first row is full. */
  lemma TopRowFull(s: System, col: int)
    requires Inv(s) && Faithful(s) && InGrid(s.n, 0, col) && s.grid[0][col]
    ensures IsFull(s, 0, col) == Ok(true)
  {
    DecodeEncode(s.n, 0, col);
    assert Link(s.n, s.grid, false, VirtualTop, Encode(s.n, 0, col));
    PathStep(s.n, s.grid, false, Encode(s.n, 0, col), VirtualTop);
    FullMeansPath(s, 0, col);
  }

  /** The source's fullness test errs only through the virtual bottom: when it
      answers true, some path, perhaps through the virtual bottom, joins the
      site to the virtual top. */
  lemma FullAsWrittenThroughBottom(s: System, row: int, col: int)
    requires Inv(s) && Faithful(s) && InGrid(s.n, row, col)
    requires IsFullAsWritten(s, row, col) == Ok(true)
    ensures Path(s.n, s.grid, true, Encode(s.n, row, col), VirtualTop)
  {
    var x := Encode(s.n, row, col);
    var r := QU.Find(s.uf2, x);
    QU.FindFindsRoot(s.uf2, x);
    QU.FindFindsRoot(s.uf2, r);
    assert QU.Connected(s.uf2, x, r);
    assert QU.Connected(s.uf1, x, r);
    QU.FindFindsRoot(s.uf1, VirtualTop);
    QU.FindFindsRoot(s.uf1, r);
    assert QU.Connected(s.uf1, x, VirtualTop);
    TracksPaths(s.uf1, s.n, s.grid, true, x, VirtualTop);
  }
}
