/**
 * The N-by-N grid of sites: coordinates, the encoding of a site as an index
 * of the union-find universe, and the number of open sites of a grid.
 */
module Grid {

  predicate InGrid(n: int, row: int, col: int) {
    0 <= row < n && 0 <= col < n
  }

  /** The union-find index of site (row, col): row by row from 1, so never
      the virtual top 0 nor the virtual bottom n*n+1. */
  function Encode(n: int, row: int, col: int): (k: int)
    ensures InGrid(n, row, col) ==> 1 <= k <= n * n
  {
    var k := row * n + col + 1;
    assert InGrid(n, row, col) ==> k <= n * n by {
      if InGrid(n, row, col) {
        MultiplyMonotone(row, n, n);
      }
    }
    k
  }

  /** The site of a union-find index, the inverse of `Encode` on 1 .. n*n. */
  function Decode(n: int, k: int): (site: (int, int))
    requires n > 0
    ensures 1 <= k <= n * n ==> InGrid(n, site.0, site.1) && Encode(n, site.0, site.1) == k
  {
    var q, r := (k - 1) / n, (k - 1) % n;
    assert 1 <= k <= n * n ==> 0 <= q < n by {
      assert k - 1 == q * n + r && 0 <= r < n;
      if 1 <= k <= n * n && q >= n {
        MultiplyMonotone(n - 1, q, n);
      }
      if 1 <= k <= n * n && q < 0 {
        MultiplyMonotone(q, 0, n);
      }
    }
    (q, r)
  }

  lemma MultiplyMonotone(a: int, b: int, n: int)
    requires n > 0 && a < b
    ensures a * n + n <= b * n
  {
    assert b * n - a * n == (b - a) * n;
    assert (b - a) * n >= n by {
      assert b - a >= 1;
    }
  }

  lemma DecodeEncode(n: int, row: int, col: int)
    requires InGrid(n, row, col)
    ensures Decode(n, Encode(n, row, col)) == (row, col)
  {
    var (q, r) := Decode(n, Encode(n, row, col));
    assert q * n + r == row * n + col && 0 <= r < n;
    if q < row {
      MultiplyMonotone(q, row, n);
    } else if row < q {
      MultiplyMonotone(row, q, n);
    }
  }

  /** Distinct sites have distinct indices. */
  lemma EncodeInjective(n: int, row: int, col: int, row': int, col': int)
    requires InGrid(n, row, col) && InGrid(n, row', col')
    ensures Encode(n, row, col) == Encode(n, row', col') <==> row == row' && col == col'
  {
    DecodeEncode(n, row, col);
    DecodeEncode(n, row', col');
  }

  /** An n-by-n grid of open (true) and blocked (false) sites. */
  predicate Square(g: seq<seq<bool>>, n: int) {
    |g| == n && forall row :: 0 <= row < |g| ==> |g[row]| == n
  }

  function Blocked(n: nat): (g: seq<seq<bool>>)
    ensures Square(g, n)
    ensures forall row, col :: 0 <= row < n && 0 <= col < n ==> !g[row][col]
  {
    seq(n, row => seq(n, col => false))
  }

  /** g with site (row, col) open. */
  function OpenCell(g: seq<seq<bool>>, row: int, col: int): (h: seq<seq<bool>>)
    requires 0 <= row < |g| && 0 <= col < |g[row]|
    ensures |h| == |g| && forall r :: 0 <= r < |g| ==> |h[r]| == |g[r]|
    ensures forall r, c :: 0 <= r < |g| && 0 <= c < |g[r]| ==> h[r][c] == (g[r][c] || (r == row && c == col))
  {
    g[row := g[row][col := true]]
  }

  function CountRow(r: seq<bool>): (c: nat)
    ensures c <= |r|
  {
    if r == [] then 0 else CountRow(r[..|r| - 1]) + (if r[|r| - 1] then 1 else 0)
  }

  /** The number of open sites of g. */
  function CountOpen(g: seq<seq<bool>>): nat {
    if g == [] then 0 else CountOpen(g[..|g| - 1]) + CountRow(g[|g| - 1])
  }

  lemma {:induction false} CountRowOpen(r: seq<bool>, col: int)
    requires 0 <= col < |r|
    ensures CountRow(r[col := true]) == CountRow(r) + (if r[col] then 0 else 1)
  {
    if col < |r| - 1 {
      assert r[col := true][..|r| - 1] == r[..|r| - 1][col := true];
      CountRowOpen(r[..|r| - 1], col);
    } else {
      assert r[col := true][..|r| - 1] == r[..|r| - 1];
    }
  }

  /** Opening a blocked site adds exactly one to the count; opening an open one, nothing. */
  lemma {:induction false} CountOpenCell(g: seq<seq<bool>>, row: int, col: int)
    requires 0 <= row < |g| && 0 <= col < |g[row]|
    ensures CountOpen(OpenCell(g, row, col)) == CountOpen(g) + (if g[row][col] then 0 else 1)
  {
    if row < |g| - 1 {
      assert OpenCell(g, row, col)[..|g| - 1] == OpenCell(g[..|g| - 1], row, col);
      CountOpenCell(g[..|g| - 1], row, col);
    } else {
      assert OpenCell(g, row, col)[..|g| - 1] == g[..|g| - 1];
      CountRowOpen(g[row], col);
    }
  }

  lemma {:induction false} CountRowBlocked(n: nat)
    ensures CountRow(seq(n, col => false)) == 0
  {
    if n > 0 {
      assert seq(n, col => false)[..n - 1] == seq(n - 1, col => false);
      CountRowBlocked(n - 1);
    }
  }

  lemma {:induction false} CountOpenBlockedRows(rows: nat, n: nat)
    ensures CountOpen(seq(rows, row => seq(n, col => false))) == 0
  {
    if rows > 0 {
      assert seq(rows, row => seq(n, col => false))[..rows - 1] == seq(rows - 1, row => seq(n, col => false));
      CountOpenBlockedRows(rows - 1, n);
      CountRowBlocked(n);
    }
  }

  /** A fresh grid has no open site. */
  lemma CountOpenBlocked(n: nat)
    ensures CountOpen(Blocked(n)) == 0
  {
    CountOpenBlockedRows(n, n);
  }

  lemma {:induction false} CountOpenRows(g: seq<seq<bool>>, n: nat)
    requires forall row :: 0 <= row < |g| ==> |g[row]| == n
    ensures CountOpen(g) <= |g| * n
  {
    if g != [] {
      CountOpenRows(g[..|g| - 1], n);
      assert (|g| - 1) * n + n == |g| * n;
    }
  }

  /** An n-by-n grid has at most n*n open sites. */
  lemma CountOpenBound(g: seq<seq<bool>>, n: nat)
    requires Square(g, n)
    ensures CountOpen(g) <= n * n
  {
    CountOpenRows(g, n);
  }
}
