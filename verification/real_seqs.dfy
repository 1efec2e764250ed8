/**
 * Vectors and dense matrices of reals, with the sums the model needs:
 * plain sums, scaling, normalisation, point updates and double sums.
 */
module RealSeqs {

  /** A dense matrix, as a sequence of rows. */
  type Matrix = seq<seq<real>>

  predicate IsSquare(m: Matrix, n: nat) {
    |m| == n && forall i :: 0 <= i < n ==> |m[i]| == n
  }

  /** A sequence of square matrices of the same size, e.g. the samples of a trace. */
  predicate AllSquare(ms: seq<Matrix>, n: nat) {
    && (forall s :: 0 <= s < |ms| ==> |ms[s]| == n)
    && (forall s, i :: 0 <= s < |ms| && 0 <= i < n ==> |ms[s][i]| == n)
  }

  function Sum(s: seq<real>): real
    decreases |s|
  {
    if |s| == 0 then 0.0 else s[0] + Sum(s[1..])
  }

  /**
   * `x / y` and `x * x` as named functions: facts about a product or a
   * quotient proved once below carry over to every use of these names.
   */
  function Ratio(x: real, y: real): real
    requires y != 0.0
  {
    x / y
  }

  function Square(x: real): real {
    x * x
  }

  lemma ProductPositive(x: real, y: real, p: real)
    requires x > 0.0 && y > 0.0 && p == x * y
    ensures p > 0.0
  {
  }

  lemma ProductNonNegative(x: real, y: real, p: real)
    requires x >= 0.0 && y >= 0.0 && p == x * y
    ensures p >= 0.0
  {
  }

  lemma SquareNonZero(x: real)
    ensures x != 0.0 ==> Square(x) > 0.0
  {
    if x > 0.0 {
      ProductPositive(x, x, Square(x));
    } else if x < 0.0 {
      ProductPositive(-x, -x, Square(x));
    }
  }

  /** Against a non-negative bound, comparing squares decides a comparison with a positive number. */
  lemma SquareAbove(s: real, root: real)
    requires root >= 0.0
    ensures (s > 0.0 && Square(s) > Square(root)) <==> s > root
  {
    assert Square(s) - Square(root) == (s - root) * (s + root);
    if s > root {
      ProductPositive(s - root, s + root, Square(s) - Square(root));
    } else if s > 0.0 {
      ProductNonNegative(root - s, s + root, Square(root) - Square(s));
    }
  }

  lemma SquareAboveAll(s: real)
    ensures forall root :: root >= 0.0 ==> ((s > 0.0 && Square(s) > Square(root)) <==> s > root)
  {
    forall root | root >= 0.0
      ensures (s > 0.0 && Square(s) > Square(root)) <==> s > root
    {
      SquareAbove(s, root);
    }
  }

  /** A quotient by a positive number has the sign of its numerator. */
  lemma RatioSign(x: real, y: real)
    requires y > 0.0
    ensures Ratio(x, y) > 0.0 <==> x > 0.0
    ensures Ratio(x, y) >= 0.0 <==> x >= 0.0
  {
    assert Ratio(x, y) * y == x;
  }

  lemma RatioInUnit(x: real, y: real)
    requires 0.0 <= x <= y && y > 0.0
    ensures 0.0 <= Ratio(x, y) <= 1.0
  {
    assert Ratio(x, y) * y == x;
  }

  lemma RatioInverse(x: real, y: real)
    requires x != 0.0 && y != 0.0
    ensures Ratio(x, y) != 0.0 && Ratio(x, Ratio(x, y)) == y
  {
    assert Ratio(x, y) * y == x;
  }

  function Zeros(n: nat): (z: seq<real>)
    ensures |z| == n && forall i :: 0 <= i < n ==> z[i] == 0.0
  {
    seq(n, i => 0.0)
  }

  function Scale(s: seq<real>, c: real): (r: seq<real>)
    ensures |r| == |s| && forall i :: 0 <= i < |s| ==> r[i] == c * s[i]
  {
    seq(|s|, i requires 0 <= i < |s| => c * s[i])
  }

  /**
   * Divides every entry by the sum, as `np.array(x) / sum(x)` does:
   * the result sums to one and is proportional to the input.
   */
  function Normalise(s: seq<real>): (r: seq<real>)
    requires Sum(s) != 0.0
    ensures |r| == |s| && Sum(r) == 1.0
    ensures forall i :: 0 <= i < |s| ==> r[i] == s[i] / Sum(s)
  {
    SumScale(s, 1.0 / Sum(s));
    Scale(s, 1.0 / Sum(s))
  }

  /** Column `c` of a matrix whose rows all have more than `c` entries. */
  function Column(m: Matrix, c: nat): (col: seq<real>)
    requires forall i :: 0 <= i < |m| ==> c < |m[i]|
    ensures |col| == |m| && forall i :: 0 <= i < |m| ==> col[i] == m[i][c]
  {
    seq(|m|, i requires 0 <= i < |m| => m[i][c])
  }

  /** The sum of each row. */
  function RowSums(m: Matrix): (r: seq<real>)
    ensures |r| == |m| && forall j :: 0 <= j < |m| ==> r[j] == Sum(m[j])
  {
    seq(|m|, j requires 0 <= j < |m| => Sum(m[j]))
  }

  /** The sum of each of the `n` columns. */
  function ColumnSums(m: Matrix, n: nat): (r: seq<real>)
    requires forall i :: 0 <= i < |m| ==> |m[i]| == n
    ensures |r| == n && forall j :: 0 <= j < n ==> r[j] == Sum(Column(m, j))
  {
    seq(n, j requires 0 <= j < n => Sum(Column(m, j)))
  }

  /** The sum of all entries of a matrix, row by row. */
  function Total(m: Matrix): real
    decreases |m|
  {
    if |m| == 0 then 0.0 else Sum(m[0]) + Total(m[1..])
  }

  /** Inner product of two vectors of the same length. */
  function Dot(a: seq<real>, b: seq<real>): real
    requires |a| == |b|
  {
    Sum(seq(|a|, i requires 0 <= i < |a| => a[i] * b[i]))
  }

  /** The sum splits over concatenation. */
  lemma {:induction false} SumAppend(s: seq<real>, t: seq<real>)
    ensures Sum(s + t) == Sum(s) + Sum(t)
    decreases |s|
  {
    if |s| == 0 {
      assert s + t == t;
    } else {
      assert (s + t)[1..] == s[1..] + t;
      SumAppend(s[1..], t);
    }
  }

  /** Summing from the back gives the same value as the definition, which sums from the front. */
  lemma SumLast(s: seq<real>)
    requires |s| > 0
    ensures Sum(s) == Sum(s[..|s| - 1]) + s[|s| - 1]
  {
    assert s == s[..|s| - 1] + [s[|s| - 1]];
    SumAppend(s[..|s| - 1], [s[|s| - 1]]);
  }

  lemma {:induction false} SumZeros(n: nat)
    ensures Sum(Zeros(n)) == 0.0
  {
    if n > 0 {
      assert Zeros(n)[1..] == Zeros(n - 1);
      SumZeros(n - 1);
    }
  }

  /** Multiplying every entry by `c` multiplies the sum by `c`. */
  lemma {:induction false} SumScale(s: seq<real>, c: real)
    ensures Sum(Scale(s, c)) == c * Sum(s)
    decreases |s|
  {
    if |s| > 0 {
      ScaleTail(s, c);
      SumScale(s[1..], c);
      Distribute(c, s[0], Sum(s[1..]));
    }
  }

  lemma ScaleTail(s: seq<real>, c: real)
    requires |s| > 0
    ensures Scale(s, c)[1..] == Scale(s[1..], c)
  {
    var r, r' := Scale(s, c), Scale(s[1..], c);
    forall i | 0 <= i < |r'|
      ensures r[1..][i] == r'[i]
    {
      assert r[1..][i] == r[i + 1];
    }
  }

  lemma Distribute(c: real, x: real, y: real)
    ensures c * (x + y) == c * x + c * y
  {
  }

  /** Replacing one entry changes the sum by the difference. */
  lemma {:induction false} SumUpdate(s: seq<real>, i: nat, v: real)
    requires i < |s|
    ensures Sum(s[i := v]) == Sum(s) - s[i] + v
    decreases |s|
  {
    if i > 0 {
      assert s[i := v][1..] == s[1..][i - 1 := v];
      SumUpdate(s[1..], i - 1, v);
    } else {
      assert s[i := v][1..] == s[1..];
    }
  }

  /** The sum of a pointwise sum is the sum of the sums. */
  lemma {:induction false} SumPointwise(a: seq<real>, b: seq<real>)
    requires |a| == |b|
    ensures Sum(seq(|a|, i requires 0 <= i < |a| => a[i] + b[i])) == Sum(a) + Sum(b)
    decreases |a|
  {
    var s := seq(|a|, i requires 0 <= i < |a| => a[i] + b[i]);
    if |a| > 0 {
      assert s[1..] == seq(|a| - 1, i requires 0 <= i < |a| - 1 => a[1..][i] + b[1..][i]);
      SumPointwise(a[1..], b[1..]);
    }
  }

  /** The sum of non-negative entries is non-negative. */
  lemma {:induction false} SumNonNegative(s: seq<real>)
    requires forall i :: 0 <= i < |s| ==> s[i] >= 0.0
    ensures Sum(s) >= 0.0
    decreases |s|
  {
    if |s| > 0 {
      SumNonNegative(s[1..]);
    }
  }

  /** No entry of a non-negative vector exceeds its sum. */
  lemma {:induction false} EntryAtMostSum(s: seq<real>, i: nat)
    requires forall j :: 0 <= j < |s| ==> s[j] >= 0.0
    requires i < |s|
    ensures s[i] <= Sum(s)
    decreases |s|
  {
    SumNonNegative(s[1..]);
    if i > 0 {
      EntryAtMostSum(s[1..], i - 1);
    }
  }

  /** Summing a matrix row by row or column by column gives the same total. */
  lemma {:induction false} TotalByColumns(m: Matrix, n: nat)
    requires forall i :: 0 <= i < |m| ==> |m[i]| == n
    ensures Total(m) == Sum(ColumnSums(m, n))
    decreases |m|
  {
    var colSums := ColumnSums(m, n);
    if |m| == 0 {
      assert colSums == Zeros(n);
      SumZeros(n);
    } else {
      var rest := m[1..];
      TotalByColumns(rest, n);
      var restSums := ColumnSums(rest, n);
      forall j | 0 <= j < n
        ensures colSums[j] == m[0][j] + restSums[j]
      {
        assert Column(m, j)[1..] == Column(rest, j);
      }
      assert colSums == seq(n, j requires 0 <= j < n => m[0][j] + restSums[j]);
      SumPointwise(m[0], restSums);
    }
  }

  /** Summing a matrix row by row is summing its row sums. */
  lemma {:induction false} TotalByRows(m: Matrix)
    ensures Total(m) == Sum(RowSums(m))
    decreases |m|
  {
    if |m| > 0 {
      assert RowSums(m)[1..] == RowSums(m[1..]);
      TotalByRows(m[1..]);
    }
  }

  /** A vector whose entries are the differences of two others sums to the difference of their sums. */
  lemma {:induction false} SumDifference(a: seq<real>, b: seq<real>, d: seq<real>)
    requires |a| == |b| == |d| && forall i :: 0 <= i < |d| ==> d[i] == a[i] - b[i]
    ensures Sum(d) == Sum(a) - Sum(b)
    decreases |d|
  {
    if |d| > 0 {
      SumDifference(a[1..], b[1..], d[1..]);
    }
  }

  lemma RatioAdd(a: real, b: real, x: real)
    requires x != 0.0
    ensures Ratio(a, x) + Ratio(b, x) == Ratio(a + b, x)
  {
    assert Ratio(a, x) * x == a && Ratio(b, x) * x == b && Ratio(a + b, x) * x == a + b;
  }

  lemma RatioSelf(x: real)
    requires x != 0.0
    ensures Ratio(x, x) == 1.0
  {
    assert Ratio(x, x) * x == x;
  }

  /** Dividing every entry by `x` divides the sum by `x`. */
  lemma {:induction false} SumRatio(s: seq<real>, x: real, r: seq<real>)
    requires x != 0.0
    requires |r| == |s| && forall k :: 0 <= k < |s| ==> r[k] == Ratio(s[k], x)
    ensures Sum(r) == Ratio(Sum(s), x)
    decreases |s|
  {
    if |s| == 0 {
      assert Ratio(0.0, x) * x == 0.0;
    } else {
      SumRatio(s[1..], x, r[1..]);
      RatioAdd(s[0], Sum(s[1..]), x);
    }
  }
}
