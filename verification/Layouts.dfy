/** How a multi-dimensional value is laid out in its flat buffer: the position of an element is the
    sum of its indices, each times a factor of its dimension. */
module Layouts {
  import opened Options

  datatype Order = RowMajor | ColumnMajor

  function Product(dims: seq<nat>): nat {
    if dims == [] then 1 else dims[0] * Product(dims[1..])
  }

  predicate Within(dims: seq<nat>, ix: seq<nat>) {
    |ix| == |dims| && (dims != [] ==> ix[0] < dims[0] && Within(dims[1..], ix[1..]))
  }

  function Dot(ws: seq<nat>, ix: seq<nat>): nat
    requires |ws| == |ix|
  {
    if ws == [] then 0 else ws[0] * ix[0] + Dot(ws[1..], ix[1..])
  }

  /** Every position in the buffer belongs to exactly one element. */
  ghost predicate OneToOne(ws: seq<nat>, dims: seq<nat>)
    requires |ws| == |dims|
  {
    && (forall ix :: Within(dims, ix) ==> Dot(ws, ix) < Product(dims))
    && (forall ix, iy :: Within(dims, ix) && Within(dims, iy) && Dot(ws, ix) == Dot(ws, iy) ==> ix == iy)
    && (forall v :: 0 <= v < Product(dims) ==> Attained(ws, dims, v))
  }

  ghost predicate Attained(ws: seq<nat>, dims: seq<nat>, v: nat)
    requires |ws| == |dims|
  {
    exists ix :: Within(dims, ix) && Dot(ws, ix) == v
  }

  // ---- Arithmetic -------------------------------------------------------------------

  lemma MulMono(a: nat, b: nat, c: nat)
    requires a <= b
    ensures a * c <= b * c && c * a <= c * b
  {
  }

  lemma DigitBelow(a: nat, d: nat, p: nat, b: nat)
    requires a < d && b < p
    ensures a * p + b < d * p
  {
    MulMono(a + 1, d, p);
    assert (a + 1) * p == a * p + p;
  }

  lemma DigitUnique(a: nat, b: nat, c: nat, d: nat, p: nat)
    requires b < p && d < p && a * p + b == c * p + d
    ensures a == c && b == d
  {
    if a < c {
      DigitBelow(a, c, p, b);
    } else if c < a {
      DigitBelow(c, a, p, d);
    }
  }

  lemma DotCons(w: nat, ws: seq<nat>, i: nat, ix: seq<nat>)
    requires |ws| == |ix|
    ensures Dot([w] + ws, [i] + ix) == i * w + Dot(ws, ix)
  {
    assert ([w] + ws)[1..] == ws && ([i] + ix)[1..] == ix;
  }

  // ---- Row-major --------------------------------------------------------------------

  /** The factors of the row-major order: each dimension's is the product of those after it. */
  function RowFactors(dims: seq<nat>): (ws: seq<nat>)
    ensures |ws| == |dims|
  {
    if dims == [] then [] else [Product(dims[1..])] + RowFactors(dims[1..])
  }

  /** The position of an element when the last index runs fastest. */
  function RowPosition(dims: seq<nat>, ix: seq<nat>): nat
    requires |ix| == |dims|
  {
    if dims == [] then 0 else ix[0] * Product(dims[1..]) + RowPosition(dims[1..], ix[1..])
  }

  lemma {:induction false} RowIsPosition(dims: seq<nat>, ix: seq<nat>)
    requires |ix| == |dims|
    ensures Dot(RowFactors(dims), ix) == RowPosition(dims, ix)
  {
    if dims != [] {
      RowStep(dims, ix);
      RowIsPosition(dims[1..], ix[1..]);
    }
  }

  lemma RowStep(dims: seq<nat>, ix: seq<nat>)
    requires dims != [] && |ix| == |dims|
    ensures Dot(RowFactors(dims), ix) == ix[0] * Product(dims[1..]) + Dot(RowFactors(dims[1..]), ix[1..])
  {
    DotCons(Product(dims[1..]), RowFactors(dims[1..]), ix[0], ix[1..]);
    assert ix == [ix[0]] + ix[1..];
  }

  lemma {:induction false} RowBelow(dims: seq<nat>, ix: seq<nat>)
    requires Within(dims, ix)
    ensures Dot(RowFactors(dims), ix) < Product(dims)
  {
    if dims != [] {
      RowBelow(dims[1..], ix[1..]);
      RowStep(dims, ix);
      DigitBelow(ix[0], dims[0], Product(dims[1..]), Dot(RowFactors(dims[1..]), ix[1..]));
    }
  }

  lemma {:induction false} RowUnique(dims: seq<nat>, ix: seq<nat>, iy: seq<nat>)
    requires Within(dims, ix) && Within(dims, iy) && Dot(RowFactors(dims), ix) == Dot(RowFactors(dims), iy)
    ensures ix == iy
  {
    if dims != [] {
      RowStep(dims, ix);
      RowStep(dims, iy);
      RowBelow(dims[1..], ix[1..]);
      RowBelow(dims[1..], iy[1..]);
      var p, f := Product(dims[1..]), RowFactors(dims[1..]);
      DigitUnique(ix[0], Dot(f, ix[1..]), iy[0], Dot(f, iy[1..]), p);
      RowUnique(dims[1..], ix[1..], iy[1..]);
      assert ix == [ix[0]] + ix[1..] && iy == [iy[0]] + iy[1..];
    }
  }

  lemma Quotient(v: nat, d: nat, p: nat) returns (q: nat, r: nat)
    requires v < d * p
    ensures q < d && r < p && v == q * p + r
  {
    assert p > 0;
    q, r := v / p, v % p;
    if q >= d {
      MulMono(d, q, p);
    }
  }

  /** One more index in front. */
  lemma RowDigit(dims: seq<nat>, q: nat, rest: seq<nat>, p: nat, r: nat)
    requires dims != [] && q < dims[0] && Within(dims[1..], rest)
    requires p == Product(dims[1..]) && r == Dot(RowFactors(dims[1..]), rest)
    ensures Within(dims, [q] + rest) && Dot(RowFactors(dims), [q] + rest) == q * p + r
  {
    assert ([q] + rest)[1..] == rest;
    RowStep(dims, [q] + rest);
  }

  /** The element at a position of the row-major order. */
  lemma {:induction false} RowAttained(dims: seq<nat>, v: nat) returns (ix: seq<nat>)
    requires v < Product(dims)
    ensures Within(dims, ix) && Dot(RowFactors(dims), ix) == v
  {
    if dims == [] {
      ix := [];
    } else {
      var q, r := Quotient(v, dims[0], Product(dims[1..]));
      var rest := RowAttained(dims[1..], r);
      ix := [q] + rest;
      RowDigit(dims, q, rest, Product(dims[1..]), r);
    }
  }

  lemma RowOneToOne(dims: seq<nat>)
    ensures OneToOne(RowFactors(dims), dims)
  {
    var ws := RowFactors(dims);
    forall ix | Within(dims, ix)
      ensures Dot(ws, ix) < Product(dims)
    {
      RowBelow(dims, ix);
    }
    forall ix, iy | Within(dims, ix) && Within(dims, iy) && Dot(ws, ix) == Dot(ws, iy)
      ensures ix == iy
    {
      RowUnique(dims, ix, iy);
    }
    forall v | 0 <= v < Product(dims)
      ensures Attained(ws, dims, v)
    {
      var ix := RowAttained(dims, v);
    }
  }

  // ---- Column-major -----------------------------------------------------------------

  /** The position of an element when the first index runs fastest. */
  function ColumnPosition(dims: seq<nat>, ix: seq<nat>): nat
    requires |ix| == |dims|
  {
    if dims == [] then 0 else ix[0] + dims[0] * ColumnPosition(dims[1..], ix[1..])
  }

  lemma {:induction false} ColumnBelow(dims: seq<nat>, ix: seq<nat>)
    requires Within(dims, ix)
    ensures ColumnPosition(dims, ix) < Product(dims)
  {
    if dims != [] {
      ColumnBelow(dims[1..], ix[1..]);
      DigitBelow(ColumnPosition(dims[1..], ix[1..]), Product(dims[1..]), dims[0], ix[0]);
    }
  }

  lemma {:induction false} ColumnUnique(dims: seq<nat>, ix: seq<nat>, iy: seq<nat>)
    requires Within(dims, ix) && Within(dims, iy) && ColumnPosition(dims, ix) == ColumnPosition(dims, iy)
    ensures ix == iy
  {
    if dims != [] {
      DigitUnique(ColumnPosition(dims[1..], ix[1..]), ix[0], ColumnPosition(dims[1..], iy[1..]), iy[0], dims[0]);
      ColumnUnique(dims[1..], ix[1..], iy[1..]);
      assert ix == [ix[0]] + ix[1..] && iy == [iy[0]] + iy[1..];
    }
  }

  lemma {:induction false} ColumnAttained(dims: seq<nat>, v: nat) returns (ix: seq<nat>)
    requires v < Product(dims)
    ensures Within(dims, ix) && ColumnPosition(dims, ix) == v
  {
    if dims == [] {
      ix := [];
    } else {
      var p := Product(dims[1..]);
      assert v < p * dims[0];
      var q, r := Quotient(v, p, dims[0]);
      var rest := ColumnAttained(dims[1..], q);
      ix := [r] + rest;
      assert ix[1..] == rest;
    }
  }

  // ---- The factors the program uses -------------------------------------------------

  /** The factor computed for the n-th step: in row-major order the product of the dimensions from
      the second to the n-th after it, in column-major order that of the first n. */
  function Factor(order: Order, dims: seq<nat>, n: nat): nat
    requires n < |dims|
  {
    match order
    case RowMajor => Product(dims[1..n + 1])
    case ColumnMajor => Product(dims[..n])
  }

  /** The factor each index is multiplied with. */
  function FactorOf(order: Order, dims: seq<nat>, n: nat): nat
    requires n < |dims|
  {
    Factor(order, dims, if order == RowMajor then |dims| - n - 1 else n)
  }

  function FactorsUpTo(order: Order, dims: seq<nat>, n: nat): (ws: seq<nat>)
    requires n <= |dims|
    ensures |ws| == n && forall k :: 0 <= k < n ==> ws[k] == FactorOf(order, dims, k)
  {
    if n == 0 then [] else FactorsUpTo(order, dims, n - 1) + [FactorOf(order, dims, n - 1)]
  }

  function Factors(order: Order, dims: seq<nat>): (ws: seq<nat>)
    ensures |ws| == |dims| && forall k :: 0 <= k < |dims| ==> ws[k] == FactorOf(order, dims, k)
  {
    FactorsUpTo(order, dims, |dims|)
  }

  lemma {:induction false} ProductConcat(xs: seq<nat>, ys: seq<nat>)
    ensures Product(xs + ys) == Product(xs) * Product(ys)
  {
    if xs == [] {
      assert xs + ys == ys;
    } else {
      assert (xs + ys)[1..] == xs[1..] + ys;
      ProductConcat(xs[1..], ys);
      MulAssoc(xs[0], Product(xs[1..]), Product(ys));
    }
  }

  lemma MulAssoc(a: nat, b: nat, c: nat)
    ensures a * (b * c) == (a * b) * c
  {
  }

  // ---- Column-major is right --------------------------------------------------------

  lemma {:induction false} ColumnIsPosition(dims: seq<nat>, ix: seq<nat>, ws: seq<nat>, scale: nat)
    requires |ix| == |dims| == |ws|
    requires forall k :: 0 <= k < |ws| ==> ws[k] == scale * Product(dims[..k])
    ensures Dot(ws, ix) == scale * ColumnPosition(dims, ix)
    decreases |dims|
  {
    if dims != [] {
      var scale' := scale * dims[0];
      forall k | 0 <= k < |ws| - 1
        ensures ws[1..][k] == scale' * Product(dims[1..][..k])
      {
        assert dims[..k + 1] == [dims[0]] + dims[1..][..k];
        ProductConcat([dims[0]], dims[1..][..k]);
        ProductOne(dims[0]);
        MulAssoc(scale, dims[0], Product(dims[1..][..k]));
      }
      ColumnIsPosition(dims[1..], ix[1..], ws[1..], scale');
      assert Product(dims[..0]) == 1;
      MulAssoc(scale, dims[0], ColumnPosition(dims[1..], ix[1..]));
      Distribute(scale, ix[0], dims[0] * ColumnPosition(dims[1..], ix[1..]));
    }
  }

  lemma ProductOne(d: nat)
    ensures Product([d]) == d
  {
    assert Product([d]) == d * Product([d][1..]);
  }

  lemma Distribute(a: nat, b: nat, c: nat)
    ensures a * (b + c) == a * b + a * c
  {
  }

  /** In column-major layouts the first index runs fastest. */
  lemma ColumnPlaces(dims: seq<nat>, ix: seq<nat>)
    requires |ix| == |dims|
    ensures Dot(Factors(ColumnMajor, dims), ix) == ColumnPosition(dims, ix)
  {
    ColumnIsPosition(dims, ix, Factors(ColumnMajor, dims), 1);
  }

  /** Column-major layouts of any rank give every element a place of its own, the one that the first
      index running fastest gives it. */
  lemma ColumnOneToOne(dims: seq<nat>)
    ensures forall ix :: Within(dims, ix) ==> Dot(Factors(ColumnMajor, dims), ix) == ColumnPosition(dims, ix)
    ensures OneToOne(Factors(ColumnMajor, dims), dims)
  {
    var ws := Factors(ColumnMajor, dims);
    forall ix | |ix| == |dims|
      ensures Dot(ws, ix) == ColumnPosition(dims, ix)
    {
      ColumnPlaces(dims, ix);
    }
    forall ix | Within(dims, ix)
      ensures Dot(ws, ix) < Product(dims)
    {
      ColumnBelow(dims, ix);
    }
    forall ix, iy | Within(dims, ix) && Within(dims, iy) && Dot(ws, ix) == Dot(ws, iy)
      ensures ix == iy
    {
      ColumnUnique(dims, ix, iy);
    }
    forall v | 0 <= v < Product(dims)
      ensures Attained(ws, dims, v)
    {
      var ix := ColumnAttained(dims, v);
    }
  }

  // ---- When row-major is right ------------------------------------------------------

  /** The factor is right, or its index is always zero. */
  predicate Fits(ws: seq<nat>, dims: seq<nat>, n: nat)
    requires |ws| == |dims| && n < |dims|
  {
    dims[n] <= 1 || ws[n] == RowFactors(dims)[n]
  }

  ghost predicate AllFit(ws: seq<nat>, dims: seq<nat>, from: nat)
    requires |ws| == |dims|
  {
    forall n :: from <= n < |dims| ==> Fits(ws, dims, n)
  }

  lemma {:induction false} RowFactorsAt(dims: seq<nat>, n: nat)
    requires n < |dims|
    ensures RowFactors(dims)[n] == Product(dims[n + 1..])
    ensures RowFactors(dims)[n + 1..] == RowFactors(dims[n + 1..])
    decreases n
  {
    assert RowFactors(dims)[1..] == RowFactors(dims[1..]);
    if n > 0 {
      RowFactorsAt(dims[1..], n - 1);
      assert dims[1..][n..] == dims[n + 1..];
      assert RowFactors(dims)[1..][n..] == RowFactors(dims)[n + 1..];
    }
  }

  /** Factors that fit give the row-major positions. */
  lemma {:induction false} FitsIsRow(ws: seq<nat>, dims: seq<nat>, ix: seq<nat>)
    requires |ws| == |dims| && AllFit(ws, dims, 0) && Within(dims, ix)
    ensures Dot(ws, ix) == Dot(RowFactors(dims), ix)
    decreases |dims|
  {
    if dims != [] {
      assert RowFactors(dims)[1..] == RowFactors(dims[1..]);
      forall n | 0 <= n < |dims| - 1
        ensures Fits(ws[1..], dims[1..], n)
      {
        assert Fits(ws, dims, n + 1);
      }
      FitsIsRow(ws[1..], dims[1..], ix[1..]);
      assert Fits(ws, dims, 0);
      assert ix[0] == 0 || ws[0] == RowFactors(dims)[0];
    }
  }

  lemma FitsOneToOne(ws: seq<nat>, dims: seq<nat>)
    requires |ws| == |dims| && AllFit(ws, dims, 0)
    ensures OneToOne(ws, dims)
  {
    RowOneToOne(dims);
    forall ix | Within(dims, ix)
      ensures Dot(ws, ix) == Dot(RowFactors(dims), ix)
    {
      FitsIsRow(ws, dims, ix);
    }
    forall v | 0 <= v < Product(dims)
      ensures Attained(ws, dims, v)
    {
      assert Attained(RowFactors(dims), dims, v);
      var ix :| Within(dims, ix) && Dot(RowFactors(dims), ix) == v;
      assert Dot(ws, ix) == v;
    }
  }

  function Zeros(n: nat): (z: seq<nat>)
    ensures |z| == n && forall k :: 0 <= k < n ==> z[k] == 0
  {
    if n == 0 then [] else [0] + Zeros(n - 1)
  }

  predicate Positive(dims: seq<nat>) {
    forall n :: 0 <= n < |dims| ==> dims[n] >= 1
  }

  lemma {:induction false} ProductPositive(dims: seq<nat>)
    requires Positive(dims)
    ensures Product(dims) >= 1
  {
    if dims != [] {
      assert dims[0] >= 1;
      assert forall n :: 0 <= n < |dims| - 1 ==> dims[1..][n] == dims[n + 1];
      ProductPositive(dims[1..]);
      MulMono(1, dims[0], Product(dims[1..]));
    }
  }

  lemma {:induction false} DotSplit(ws: seq<nat>, ix: seq<nat>, n: nat)
    requires |ws| == |ix| && n <= |ws|
    ensures Dot(ws, ix) == Dot(ws[..n], ix[..n]) + Dot(ws[n..], ix[n..])
    decreases n
  {
    if n == 0 {
      assert ws[0..] == ws && ix[0..] == ix;
    } else {
      DotSplit(ws[1..], ix[1..], n - 1);
      assert ws[..n][1..] == ws[1..][..n - 1] && ix[..n][1..] == ix[1..][..n - 1];
      assert ws[1..][n - 1..] == ws[n..] && ix[1..][n - 1..] == ix[n..];
    }
  }

  lemma {:induction false} DotZeros(ws: seq<nat>)
    ensures Dot(ws, Zeros(|ws|)) == 0
  {
    if ws != [] {
      assert Zeros(|ws|)[1..] == Zeros(|ws| - 1);
      DotZeros(ws[1..]);
    }
  }

  lemma {:induction false} WithinSplit(dims: seq<nat>, ix: seq<nat>, n: nat)
    requires |ix| == |dims| && n <= |dims|
    ensures Within(dims, ix) <==> Within(dims[..n], ix[..n]) && Within(dims[n..], ix[n..])
    decreases n
  {
    if n == 0 {
      assert dims[0..] == dims && ix[0..] == ix;
    } else {
      WithinSplit(dims[1..], ix[1..], n - 1);
      assert dims[..n][1..] == dims[1..][..n - 1] && ix[..n][1..] == ix[1..][..n - 1];
      assert dims[1..][n - 1..] == dims[n..] && ix[1..][n - 1..] == ix[n..];
    }
  }

  lemma {:induction false} ZerosWithin(dims: seq<nat>)
    requires Positive(dims)
    ensures Within(dims, Zeros(|dims|))
  {
    if dims != [] {
      assert Zeros(|dims|)[1..] == Zeros(|dims| - 1);
      ZerosWithin(dims[1..]);
    }
  }

  /** All zero up to dimension `n`, the index `i` there, and `jx` after it. */
  lemma Placed(ws: seq<nat>, dims: seq<nat>, n: nat, i: nat, jx: seq<nat>) returns (ix: seq<nat>)
    requires |ws| == |dims| && n < |dims| && Positive(dims) && i < dims[n] && Within(dims[n + 1..], jx)
    ensures Within(dims, ix) && ix[n] == i && Dot(ws, ix) == ws[n] * i + Dot(ws[n + 1..], jx)
  {
    var tail := [i] + jx;
    ix := Zeros(n) + tail;
    assert ix[..n] == Zeros(n) && ix[n..] == tail && tail[1..] == jx;
    assert dims[n..][1..] == dims[n + 1..] && ws[n..][1..] == ws[n + 1..];
    ZerosWithin(dims[..n]);
    WithinSplit(dims, ix, n);
    DotSplit(ws, ix, n);
    DotZeros(ws[..n]);
    assert ws[..n] == ws[..n] && |ws[..n]| == n;
  }

  /** What is left of a position below the first dimension whose factor does not fit. */
  lemma InnerFits(ws: seq<nat>, dims: seq<nat>, n: nat)
    requires |ws| == |dims| && n < |dims| && AllFit(ws, dims, n + 1)
    ensures AllFit(ws[n + 1..], dims[n + 1..], 0)
  {
    RowFactorsAt(dims, n);
    var innerWs, inner := ws[n + 1..], dims[n + 1..];
    forall k | 0 <= k < |inner|
      ensures Fits(innerWs, inner, k)
    {
      assert Fits(ws, dims, n + 1 + k);
    }
  }

  /** A factor that is too small gives two elements the same place. */
  lemma TooSmall(ws: seq<nat>, dims: seq<nat>, n: nat)
    requires |ws| == |dims| && Positive(dims) && n < |dims| && dims[n] >= 2 && AllFit(ws, dims, n + 1)
    requires ws[n] < Product(dims[n + 1..])
    ensures !OneToOne(ws, dims)
  {
    var inner := dims[n + 1..];
    var jx := RowAttained(inner, ws[n]);
    InnerFits(ws, dims, n);
    FitsIsRow(ws[n + 1..], inner, jx);
    var ix := Placed(ws, dims, n, 0, jx);
    ZerosWithin(inner);
    var iy := Placed(ws, dims, n, 1, Zeros(|inner|));
    DotZeros(ws[n + 1..]);
    assert Dot(ws, ix) == Dot(ws, iy) && ix != iy;
  }

  lemma {:induction false} DotAtLeast(ws: seq<nat>, ix: seq<nat>, k: nat)
    requires |ws| == |ix| && k < |ws| && ix[k] >= 1
    ensures Dot(ws, ix) >= ws[k]
    decreases k
  {
    if k == 0 {
      MulMono(1, ix[0], ws[0]);
    } else {
      DotAtLeast(ws[1..], ix[1..], k - 1);
    }
  }

  lemma {:induction false} FirstNonZero(ix: seq<nat>, n: nat) returns (k: nat)
    requires n <= |ix|
    ensures k <= n && (k < n ==> ix[k] >= 1) && (k == n ==> ix[..n] == Zeros(n))
  {
    if n == 0 {
      k := 0;
    } else {
      k := FirstNonZero(ix, n - 1);
      if k == n - 1 && ix[k] == 0 {
        k := n;
      }
    }
  }

  /** With zeros in front, an element stays below the product of the dimensions behind. */
  lemma InnerOnly(ws: seq<nat>, dims: seq<nat>, n: nat, ix: seq<nat>)
    requires |ws| == |dims| && n < |dims| && AllFit(ws, dims, n + 1) && Within(dims, ix)
    requires ix[..n + 1] == Zeros(n + 1)
    ensures Dot(ws, ix) < Product(dims[n + 1..])
  {
    DotSplit(ws, ix, n + 1);
    DotZeros(ws[..n + 1]);
    WithinSplit(dims, ix, n + 1);
    InnerFits(ws, dims, n);
    FitsIsRow(ws[n + 1..], dims[n + 1..], ix[n + 1..]);
    RowBelow(dims[n + 1..], ix[n + 1..]);
  }

  lemma Unreached(ws: seq<nat>, dims: seq<nat>, n: nat, ix: seq<nat>)
    requires |ws| == |dims| && n < |dims| && AllFit(ws, dims, n + 1) && Within(dims, ix)
    requires forall k :: 0 <= k <= n ==> ws[k] >= ws[n]
    requires ws[n] > Product(dims[n + 1..])
    ensures Dot(ws, ix) != Product(dims[n + 1..])
  {
    var k := FirstNonZero(ix, n + 1);
    if k <= n {
      DotAtLeast(ws, ix, k);
    } else {
      InnerOnly(ws, dims, n, ix);
    }
  }

  lemma InnerBelowProduct(dims: seq<nat>, n: nat)
    requires Positive(dims) && n < |dims| && dims[n] >= 2
    ensures Product(dims[n + 1..]) < Product(dims)
  {
    var inner := Product(dims[n + 1..]);
    assert dims == dims[..n] + dims[n..];
    ProductConcat(dims[..n], dims[n..]);
    assert dims[n..][1..] == dims[n + 1..];
    ProductPositive(dims[n + 1..]);
    ProductPositive(dims[..n]);
    MulMono(2, dims[n], inner);
    MulMono(1, Product(dims[..n]), Product(dims[n..]));
  }

  /** A factor that is too large leaves a place without an element. */
  lemma TooLarge(ws: seq<nat>, dims: seq<nat>, n: nat)
    requires |ws| == |dims| && Positive(dims) && n < |dims| && dims[n] >= 2 && AllFit(ws, dims, n + 1)
    requires forall k :: 0 <= k <= n ==> ws[k] >= ws[n]
    requires ws[n] > Product(dims[n + 1..])
    ensures !OneToOne(ws, dims)
  {
    var v := Product(dims[n + 1..]);
    InnerBelowProduct(dims, n);
    forall ix | Within(dims, ix)
      ensures Dot(ws, ix) != v
    {
      Unreached(ws, dims, n, ix);
    }
    assert !Attained(ws, dims, v);
  }

  /** Each factor the program uses in row-major order is at least the one after it. */
  lemma FactorsDescend(dims: seq<nat>, k: nat, n: nat)
    requires Positive(dims) && k <= n < |dims|
    ensures FactorOf(RowMajor, dims, k) >= FactorOf(RowMajor, dims, n)
  {
    var a, b := |dims| - n, |dims| - k;
    assert dims[1..b] == dims[1..a] + dims[a..b];
    ProductConcat(dims[1..a], dims[a..b]);
    assert forall j :: 0 <= j < b - a ==> dims[a..b][j] == dims[a + j];
    ProductPositive(dims[a..b]);
    MulMono(1, Product(dims[a..b]), Product(dims[1..a]));
  }

  lemma {:induction false} LastMisfit(ws: seq<nat>, dims: seq<nat>, from: nat) returns (n: nat)
    requires |ws| == |dims| && from <= |dims| && AllFit(ws, dims, from) && !AllFit(ws, dims, 0)
    ensures n < |dims| && !Fits(ws, dims, n) && AllFit(ws, dims, n + 1)
    decreases from
  {
    if Fits(ws, dims, from - 1) {
      n := LastMisfit(ws, dims, from - 1);
    } else {
      n := from - 1;
    }
  }

  lemma {:induction false} NoElements(dims: seq<nat>)
    requires !Positive(dims)
    ensures Product(dims) == 0 && forall ix :: !Within(dims, ix)
  {
    var n :| 0 <= n < |dims| && dims[n] == 0;
    assert dims == dims[..n] + dims[n..];
    ProductConcat(dims[..n], dims[n..]);
    forall ix
      ensures !Within(dims, ix)
    {
      if Within(dims, ix) {
        WithinSplit(dims, ix, n);
      }
    }
  }

  /** The dimension is one, or the product the program takes for it is that of the dimensions
      after it. */
  predicate RightAt(dims: seq<nat>, n: nat)
    requires n < |dims|
  {
    dims[n] == 1 || Product(dims[1..|dims| - n]) == Product(dims[n + 1..])
  }

  /** Every dimension of a row-major layout has the right factor. */
  predicate RowsRight(dims: seq<nat>) {
    forall n :: 0 <= n < |dims| ==> RightAt(dims, n)
  }

  lemma RightMeansFits(dims: seq<nat>, n: nat)
    requires Positive(dims) && n < |dims|
    ensures RightAt(dims, n) <==> Fits(Factors(RowMajor, dims), dims, n)
  {
    RowFactorsAt(dims, n);
  }

  lemma MisfitClashes(dims: seq<nat>)
    requires Positive(dims) && !AllFit(Factors(RowMajor, dims), dims, 0)
    ensures !OneToOne(Factors(RowMajor, dims), dims)
  {
    var ws := Factors(RowMajor, dims);
    var n := LastMisfit(ws, dims, |dims|);
    RowFactorsAt(dims, n);
    if ws[n] < Product(dims[n + 1..]) {
      TooSmall(ws, dims, n);
    } else {
      forall k | 0 <= k <= n
        ensures ws[k] >= ws[n]
      {
        FactorsDescend(dims, k, n);
      }
      TooLarge(ws, dims, n);
    }
  }

  /** Row-major layouts give every element a place of its own exactly when there are no elements
      or the factor of every dimension is right. */
  lemma RowMajorExactly(dims: seq<nat>)
    ensures OneToOne(Factors(RowMajor, dims), dims)
       <==> !Positive(dims) || RowsRight(dims)
  {
    if !Positive(dims) {
      NoElements(dims);
    } else {
      forall n | 0 <= n < |dims|
        ensures RightAt(dims, n) <==> Fits(Factors(RowMajor, dims), dims, n)
      {
        RightMeansFits(dims, n);
      }
      if AllFit(Factors(RowMajor, dims), dims, 0) {
        FitsOneToOne(Factors(RowMajor, dims), dims);
      } else {
        MisfitClashes(dims);
      }
    }
  }

  ghost predicate RowsInOrder(dims: seq<nat>) {
    forall ix :: Within(dims, ix) ==> Dot(Factors(RowMajor, dims), ix) == RowPosition(dims, ix)
  }

  /** In row-major layouts the last index runs fastest exactly when there are no elements or the
      factor of every dimension is right. */
  lemma RowPlaces(dims: seq<nat>)
    ensures RowsInOrder(dims) <==> !Positive(dims) || RowsRight(dims)
  {
    var ws := Factors(RowMajor, dims);
    if !Positive(dims) {
      NoElements(dims);
    } else if RowsRight(dims) {
      forall n | 0 <= n < |dims|
        ensures Fits(ws, dims, n)
      {
        RightMeansFits(dims, n);
      }
      forall ix | Within(dims, ix)
        ensures Dot(ws, ix) == RowPosition(dims, ix)
      {
        FitsIsRow(ws, dims, ix);
        RowIsPosition(dims, ix);
      }
    } else {
      RowMajorExactly(dims);
      if RowsInOrder(dims) {
        SamePlaces(dims);
      }
    }
  }

  lemma SamePlaces(dims: seq<nat>)
    requires RowsInOrder(dims)
    ensures OneToOne(Factors(RowMajor, dims), dims)
  {
    var ws, rs := Factors(RowMajor, dims), RowFactors(dims);
    RowOneToOne(dims);
    forall ix | Within(dims, ix)
      ensures Dot(ws, ix) == Dot(rs, ix)
    {
      RowIsPosition(dims, ix);
    }
    forall v | 0 <= v < Product(dims)
      ensures Attained(ws, dims, v)
    {
      assert Attained(rs, dims, v);
      var ix :| Within(dims, ix) && Dot(rs, ix) == v;
      assert Dot(ws, ix) == v;
    }
  }

  /** The factors of the two orders, of rank three. */
  lemma CubeFactors(a: nat, b: nat, c: nat)
    ensures Factors(ColumnMajor, [a, b, c]) == [1, a, a * b]
    ensures Factors(RowMajor, [a, b, c]) == [b * c, b, 1]
  {
    var dims := [a, b, c];
    assert dims[..0] == [] && dims[..1] == [a] && dims[..2] == [a] + [b];
    assert dims[1..3] == [b] + [c] && dims[1..2] == [b] && dims[1..1] == [];
    ProductOne(a);
    ProductOne(b);
    ProductOne(c);
    ProductConcat([a], [b]);
    ProductConcat([b], [c]);
  }

  /** Up to rank two row-major layouts are always right. */
  lemma RowMajorFlat(dims: seq<nat>)
    requires |dims| <= 2
    ensures OneToOne(Factors(RowMajor, dims), dims)
  {
    RowMajorExactly(dims);
    forall n | 0 <= n < |dims|
      ensures RightAt(dims, n)
    {
      assert n == 0 || n == |dims| - 1;
      assert dims[1..|dims| - n] == dims[n + 1..];
    }
  }

  /** Of rank three, they are right exactly when there are no elements, the second dimension is
      one, or it equals the third. */
  lemma RowMajorCube(a: nat, b: nat, c: nat)
    ensures OneToOne(Factors(RowMajor, [a, b, c]), [a, b, c]) <==> a == 0 || b == 0 || c == 0 || b == 1 || b == c
  {
    var dims := [a, b, c];
    RowMajorExactly(dims);
    assert dims[1..3] == dims[1..] && dims[1..2] == [b] && dims[2..] == [c] && dims[3..] == dims[1..1];
    ProductOne(b);
    ProductOne(c);
    assert Positive(dims) <==> a >= 1 && b >= 1 && c >= 1;
    assert RightAt(dims, 0) && RightAt(dims, 2) && (RightAt(dims, 1) <==> b == 1 || b == c);
  }

  // ---- The loops --------------------------------------------------------------------

  lemma {:induction false} ProductOneMore(ds: seq<nat>, d: nat)
    ensures Product(ds + [d]) == Product(ds) * d && Product([d] + ds) == d * Product(ds)
  {
    ProductConcat(ds, [d]);
    ProductConcat([d], ds);
    ProductOne(d);
  }

  method GetFactor(order: Order, dims: seq<nat>, n: nat) returns (result: nat)
    requires n < |dims|
    ensures result == Factor(order, dims, n)
    ensures order == ColumnMajor ==> result == Product(dims[..n])
    ensures order == RowMajor ==> result == Product(dims[1..n + 1])
  {
    result := 1;
    var k := 0;
    match order
    case RowMajor =>
      while k < n
        invariant k <= n && result == Product(dims[n - k + 1..n + 1])
      {
        ProductOneMore(dims[n - k + 1..n + 1], dims[n - k]);
        assert dims[n - k..n + 1] == [dims[n - k]] + dims[n - k + 1..n + 1];
        result := result * dims[n - k];
        k := k + 1;
      }
    case ColumnMajor =>
      while k < n
        invariant k <= n && result == Product(dims[..k])
      {
        ProductOneMore(dims[..k], dims[k]);
        assert dims[..k + 1] == dims[..k] + [dims[k]];
        result := result * dims[k];
        k := k + 1;
      }
  }

  lemma {:induction false} DotOneMore(ws: seq<nat>, ix: seq<nat>, w: nat, i: nat)
    requires |ws| == |ix|
    ensures Dot(ws + [w], ix + [i]) == Dot(ws, ix) + w * i
  {
    DotSplit(ws + [w], ix + [i], |ws|);
    assert (ws + [w])[..|ws|] == ws && (ix + [i])[..|ix|] == ix;
    assert (ws + [w])[|ws|..] == [w] && (ix + [i])[|ix|..] == [i];
    assert Dot([w], [i]) == w * i + Dot([w][1..], [i][1..]);
  }

  lemma DotUpTo(ws: seq<nat>, ix: seq<nat>, n: nat)
    requires |ws| == |ix| && n < |ws|
    ensures Dot(ws[..n + 1], ix[..n + 1]) == Dot(ws[..n], ix[..n]) + ws[n] * ix[n]
  {
    DotOneMore(ws[..n], ix[..n], ws[n], ix[n]);
    assert ws[..n + 1] == ws[..n] + [ws[n]] && ix[..n + 1] == ix[..n] + [ix[n]];
  }

  /** The position of the element the indices stand at. */
  method CalculateArrayIndex(order: Order, dims: seq<nat>, indices: array<nat>) returns (index: nat)
    requires indices.Length == |dims|
    ensures index == Dot(Factors(order, dims), indices[..])
    ensures order == ColumnMajor ==> index == ColumnPosition(dims, indices[..])
    ensures order == RowMajor && RowsRight(dims) && Within(dims, indices[..])
        ==> index == RowPosition(dims, indices[..])
  {
    index := 0;
    var n := 0;
    ghost var ws, ix := Factors(order, dims), indices[..];
    while n < |dims|
      invariant n <= |dims| && index == Dot(ws[..n], ix[..n])
    {
      var factor := GetFactor(order, dims, if order == RowMajor then |dims| - n - 1 else n);
      DotUpTo(ws, ix, n);
      index := index + factor * indices[n];
      n := n + 1;
    }
    assert ws[..n] == ws && ix[..n] == ix;
    ColumnPlaces(dims, ix);
    RowPlaces(dims);
  }

  /** A vector shown as a table needs a layout whose dimensions multiply to the number of items;
      shown otherwise it needs none. */
  method ValidateVector(isTable: bool, layout: Option<seq<nat>>, itemCount: nat) returns (ok: bool)
    ensures ok <==> (isTable ==> layout.Some? && itemCount == Product(layout.value))
  {
    if !isTable {
      return true;
    }
    if layout.None? {
      return false;
    }
    var dims := layout.value;
    var product := 1;
    var n := 0;
    while n < |dims|
      invariant n <= |dims| && product == Product(dims[..n])
    {
      ProductOneMore(dims[..n], dims[n]);
      assert dims[..n + 1] == dims[..n] + [dims[n]];
      product := product * dims[n];
      n := n + 1;
    }
    assert dims[..n] == dims;
    ok := itemCount == product;
  }

  // ---- Counting places --------------------------------------------------------------

  ghost function SetOf(s: seq<nat>): set<nat> {
    set x | x in s
  }

  ghost function Naturals(n: nat): (r: set<nat>)
    ensures forall x: nat :: x in r <==> x < n
    ensures |r| == n
  {
    if n == 0 then {} else Naturals(n - 1) + {n - 1}
  }

  lemma {:induction false} SetOfSize(s: seq<nat>)
    ensures |SetOf(s)| <= |s|
  {
    if s != [] {
      var init, x := s[..|s| - 1], s[|s| - 1];
      SetOfSize(init);
      assert s == init + [x];
      assert SetOf(s) == SetOf(init) + {x};
    }
  }

  lemma SmallerSet(a: set<nat>, b: set<nat>)
    requires a <= b
    ensures |a| <= |b|
  {
    assert b == a + (b - a);
  }

  /** A list of `n` numbers that has all numbers below `n` has none of them twice. */
  lemma NoneTwice(s: seq<nat>, a: nat, b: nat)
    requires a < b < |s| && forall v :: 0 <= v < |s| ==> v in s
    ensures s[a] != s[b]
  {
    if s[a] == s[b] {
      var rest := s[..b] + s[b + 1..];
      forall v | v in Naturals(|s|)
        ensures v in SetOf(rest)
      {
        assert v in s;
        var k :| 0 <= k < |s| && s[k] == v;
        var k' := if k == b then a else k;
        assert s[k'] == v && k' != b;
        assert rest[if k' < b then k' else k' - 1] == v;
      }
      SetOfSize(rest);
      SmallerSet(Naturals(|s|), SetOf(rest));
    }
  }

  /** The element at a position of the row-major order. */
  ghost function RowIndex(dims: seq<nat>, v: nat): (ix: seq<nat>)
    requires v < Product(dims)
    ensures Within(dims, ix) && Dot(RowFactors(dims), ix) == v
  {
    RowOneToOne(dims);
    assert Attained(RowFactors(dims), dims, v);
    var ix :| Within(dims, ix) && Dot(RowFactors(dims), ix) == v;
    ix
  }

  /** The places of the first `n` elements in row-major order. */
  ghost function Places(ws: seq<nat>, dims: seq<nat>, n: nat): (s: seq<nat>)
    requires |ws| == |dims| && n <= Product(dims)
    ensures |s| == n && forall v :: 0 <= v < n ==> s[v] == Dot(ws, RowIndex(dims, v))
  {
    if n == 0 then [] else Places(ws, dims, n - 1) + [Dot(ws, RowIndex(dims, n - 1))]
  }

  /** Elements that stay inside the buffer and leave no place out share no place either. */
  lemma AttainedOneToOne(ws: seq<nat>, dims: seq<nat>)
    requires |ws| == |dims| && forall ix :: Within(dims, ix) ==> Dot(ws, ix) < Product(dims)
    requires forall v :: 0 <= v < Product(dims) ==> Attained(ws, dims, v)
    ensures OneToOne(ws, dims)
  {
    var places := Places(ws, dims, Product(dims));
    forall v | 0 <= v < Product(dims)
      ensures v in places
    {
      assert Attained(ws, dims, v);
      var ix :| Within(dims, ix) && Dot(ws, ix) == v;
      PlaceOf(ws, dims, ix);
    }
    forall ix, iy | Within(dims, ix) && Within(dims, iy) && Dot(ws, ix) == Dot(ws, iy)
      ensures ix == iy
    {
      PlaceOf(ws, dims, ix);
      PlaceOf(ws, dims, iy);
      var a, b := Dot(RowFactors(dims), ix), Dot(RowFactors(dims), iy);
      if a < b {
        NoneTwice(places, a, b);
      } else if b < a {
        NoneTwice(places, b, a);
      }
      RowUnique(dims, ix, iy);
    }
  }

  lemma PlaceOf(ws: seq<nat>, dims: seq<nat>, ix: seq<nat>)
    requires |ws| == |dims| && Within(dims, ix)
    ensures var v := Dot(RowFactors(dims), ix); v < Product(dims) && Places(ws, dims, Product(dims))[v] == Dot(ws, ix)
  {
    RowBelow(dims, ix);
    RowUnique(dims, ix, RowIndex(dims, Dot(RowFactors(dims), ix)));
  }
}
