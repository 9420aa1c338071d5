/** Periodic nearest-neighbour lattice of the Ising benchmark network.
  * The sites of a `linearsize^dimension` torus are numbered in base
  * `linearsize`: digit `d` of a site number is its coordinate along
  * dimension `d`. */
module Ising {

  // ---------------------------------------------------------------------
  // Integer arithmetic, stated on plain variables
  // ---------------------------------------------------------------------

  /** `b` raised to `e`, as Python's `**` on non-negative integers. */
  function Pow(b: nat, e: nat): (r: nat)
    ensures b >= 1 ==> r >= 1
    ensures b == 0 && e >= 1 ==> r == 0
  {
    if e == 0 then 1 else MulPositive(b, Pow(b, e - 1)); b * Pow(b, e - 1)
  }

  lemma MulPositive(a: int, b: int)
    ensures a >= 1 && b >= 1 ==> a * b >= 1
  {
  }

  lemma MulAssoc(a: int, b: int, c: int)
    ensures a * (b * c) == (a * b) * c
  {
  }

  lemma MulNonneg(a: int, b: int)
    requires a >= 0 && b >= 0
    ensures a * b >= 0
  {
  }

  lemma MulSucc(a: int, n: int)
    ensures a * n == a * (n - 1) + a
  {
  }

  lemma MulAtLeast(k: int, m: int)
    requires k >= 1 && m > 0
    ensures k * m >= m
  {
  }

  lemma {:induction false} PowAdd(b: nat, e1: nat, e2: nat)
    ensures Pow(b, e1 + e2) == Pow(b, e1) * Pow(b, e2)
  {
    if e1 > 0 {
      PowAdd(b, e1 - 1, e2);
      MulAssoc(b, Pow(b, e1 - 1), Pow(b, e2));
    }
  }

  /** Quotient and remainder are determined by `a == q * m + r` with `0 <= r < m`. */
  lemma DivModUnique(a: int, m: int, q: int, r: int)
    requires m > 0 && 0 <= r < m && a == q * m + r
    ensures a / m == q && a % m == r
  {
    var q', r' := a / m, a % m;
    assert (q - q') * m == r' - r;
    ZeroMultiple(q - q', m, r' - r);
  }

  /** The only multiple of `m` strictly between `-m` and `m` is zero. */
  lemma ZeroMultiple(k: int, m: int, s: int)
    requires m > 0 && k * m == s && -m < s < m
    ensures k == 0
  {
    if k >= 1 {
      MulAtLeast(k, m);
    } else if k <= -1 {
      MulAtLeast(-k, m);
    }
  }

  /** `dig * P + lo` stays below `L * P`. */
  lemma BlockBound(L: int, P: int, dig: int, lo: int)
    requires 0 <= dig < L && 0 <= lo < P
    ensures 0 <= dig * P + lo < L * P
  {
    assert dig * P <= (L - 1) * P;
    assert (L - 1) * P == L * P - P;
  }

  /** Splits `x` into the block above a digit of weight `P`, that digit, and the block below. */
  lemma Blocks(x: nat, L: nat, P: nat)
    requires L >= 1 && P >= 1
    ensures x == (x / (L * P)) * (L * P) + ((x / P) % L) * P + x % P
    ensures x / (L * P) == (x / P) / L
  {
    var q, lo := x / P, x % P;
    var hi, dig := q / L, q % L;
    assert x == q * P + lo;
    assert q == hi * L + dig;
    assert x == hi * (L * P) + (dig * P + lo) by {
      assert q * P == (hi * L + dig) * P;
      assert (hi * L + dig) * P == hi * L * P + dig * P;
    }
    BlockBound(L, P, dig, lo);
    DivModUnique(x, L * P, hi, dig * P + lo);
  }

  /** Reads the three blocks back from `hi * (L * P) + dig * P + lo`. */
  lemma ReadBlocks(L: nat, P: nat, hi: nat, dig: nat, lo: nat)
    requires dig < L && lo < P
    ensures var x := hi * (L * P) + dig * P + lo;
      x / (L * P) == hi && (x / P) % L == dig && x % P == lo
  {
    var x := hi * (L * P) + dig * P + lo;
    assert x == (hi * L + dig) * P + lo by {
      assert (hi * L + dig) * P == hi * L * P + dig * P;
    }
    DivModUnique(x, P, hi * L + dig, lo);
    DivModUnique(hi * L + dig, L, hi, dig);
    BlockBound(L, P, dig, lo);
    DivModUnique(x, L * P, hi, dig * P + lo);
  }

  lemma DivDiv(x: nat, a: nat, b: nat)
    requires a > 0 && b > 0
    ensures x / (a * b) == (x / a) / b
  {
    Blocks(x, b, a);
    assert b * a == a * b;
  }

  /** A digit of weight `Pk` below a block of weight `Pk * (L * Q)` depends only on `x % (Pk * (L * Q))`. */
  lemma LowDigit(x: nat, Pk: nat, L: nat, Q: nat)
    requires Pk >= 1 && L >= 1 && Q >= 1
    ensures (x / Pk) % L == ((x % (Pk * (L * Q))) / Pk) % L
  {
    var P := Pk * (L * Q);
    MulPositive(L, Q);
    MulPositive(Pk, L * Q);
    var a, lo := x / P, x % P;
    var s, t := lo / Pk, lo % Pk;
    assert x == a * P + lo;
    assert lo == s * Pk + t;
    assert x == (a * (L * Q) + s) * Pk + t by {
      assert a * P == (a * (L * Q)) * Pk;
      assert (a * (L * Q) + s) * Pk == (a * (L * Q)) * Pk + s * Pk;
    }
    DivModUnique(x, Pk, a * (L * Q) + s, t);
    var b, r := s / L, s % L;
    assert s == b * L + r;
    assert a * (L * Q) + s == (a * Q + b) * L + r by {
      assert a * (L * Q) == (a * Q) * L;
      assert (a * Q + b) * L == (a * Q) * L + b * L;
    }
    DivModUnique(a * (L * Q) + s, L, a * Q + b, r);
  }

  // ---------------------------------------------------------------------
  // Base-L digits and the neighbour formula
  // ---------------------------------------------------------------------

  /** Digit `k` of `x` written in base `L`: the coordinate of site `x` along dimension `k`. */
  function Digit(L: nat, x: nat, k: nat): (r: nat)
    requires L >= 1
    ensures r < L
  {
    (x / Pow(L, k)) % L
  }

  /** One periodic step of a coordinate: `+1` or `-1` modulo `L`. */
  function Step(L: nat, dig: nat, up: bool): (r: nat)
    requires L >= 1
    ensures r < L
  {
    (dig + (if up then 1 else -1)) % L
  }

  /** The lattice formula with the two powers given as `P` (offset) and `M` (block). */
  function Wrap(P: nat, M: nat, nid: nat, up: bool): (c: nat)
    requires M >= 1
  {
    var o := if up then P as int else -(P as int);
    MulNonneg(nid / M, M);
    (nid + o) % M + (nid / M) * M
  }

  /** The index the source computes for site `nid` and offset `+L^d` (`up`) or
    * `-L^d`: add the offset modulo `L^(d+1)`, then restore the block of
    * digits above digit `d` (`int(nid / L^(d+1)) * L^(d+1)`). */
  function Neighbour(L: nat, nid: nat, d: nat, up: bool): (c: nat)
    requires L >= 1
  {
    Wrap(Pow(L, d), Pow(L, d + 1), nid, up)
  }

  lemma WrapShape(L: nat, P: nat, hi: nat, dig: nat, lo: nat, up: bool)
    requires L >= 1 && dig < L && lo < P
    ensures Wrap(P, L * P, hi * (L * P) + dig * P + lo, up)
         == hi * (L * P) + Step(L, dig, up) * P + lo
  {
    var M := L * P;
    var x := hi * M + dig * P + lo;
    BlockBound(L, P, dig, lo);
    DivModUnique(x, M, hi, dig * P + lo);
    if up && dig + 1 < L {
      WrapUpInside(L, P, M, hi, dig, lo);
    } else if up {
      WrapUpAround(L, P, M, hi, lo);
    } else if dig >= 1 {
      WrapDownInside(L, P, M, hi, dig, lo);
    } else {
      WrapDownAround(L, P, M, hi, lo);
    }
  }

  lemma WrapUpInside(L: nat, P: nat, M: nat, hi: nat, dig: nat, lo: nat)
    requires M == L * P && dig + 1 < L && lo < P
    ensures (hi * M + dig * P + lo + P) % M == (dig + 1) * P + lo
    ensures (dig + 1) % L == dig + 1
  {
    BlockBound(L, P, dig + 1, lo);
    assert hi * M + dig * P + lo + P == hi * M + ((dig + 1) * P + lo);
    DivModUnique(hi * M + dig * P + lo + P, M, hi, (dig + 1) * P + lo);
    DivModUnique(dig + 1, L, 0, dig + 1);
  }

  lemma WrapUpAround(L: nat, P: nat, M: nat, hi: nat, lo: nat)
    requires L >= 1 && M == L * P && lo < P
    ensures (hi * M + (L - 1) * P + lo + P) % M == 0 * P + lo
    ensures (L - 1 + 1) % L == 0
  {
    assert hi * M + (L - 1) * P + lo + P == (hi + 1) * M + lo;
    DivModUnique(hi * M + (L - 1) * P + lo + P, M, hi + 1, lo);
    DivModUnique(L, L, 1, 0);
  }

  lemma WrapDownInside(L: nat, P: nat, M: nat, hi: nat, dig: nat, lo: nat)
    requires M == L * P && 1 <= dig < L && lo < P
    ensures (hi * M + dig * P + lo - P) % M == (dig - 1) * P + lo
    ensures (dig - 1) % L == dig - 1
  {
    BlockBound(L, P, dig - 1, lo);
    assert hi * M + dig * P + lo - P == hi * M + ((dig - 1) * P + lo);
    DivModUnique(hi * M + dig * P + lo - P, M, hi, (dig - 1) * P + lo);
    DivModUnique(dig - 1, L, 0, dig - 1);
  }

  lemma WrapDownAround(L: nat, P: nat, M: nat, hi: nat, lo: nat)
    requires L >= 1 && M == L * P && lo < P
    ensures (hi * M + 0 * P + lo - P) % M == (L - 1) * P + lo
    ensures (0 - 1) % L == L - 1
  {
    BlockBound(L, P, L - 1, lo);
    assert hi * M + 0 * P + lo - P == (hi - 1) * M + ((L - 1) * P + lo);
    DivModUnique(hi * M + 0 * P + lo - P, M, hi - 1, (L - 1) * P + lo);
    DivModUnique(-1, L, -1, L - 1);
  }

  /** Digits above `d` depend only on `x / L^(d+1)`. */
  lemma DigitAbove(L: nat, x: nat, y: nat, d: nat, k: nat)
    requires L >= 1 && k > d && x / Pow(L, d + 1) == y / Pow(L, d + 1)
    ensures Digit(L, x, k) == Digit(L, y, k)
  {
    PowAdd(L, d + 1, k - d - 1);
    DivDiv(x, Pow(L, d + 1), Pow(L, k - d - 1));
    DivDiv(y, Pow(L, d + 1), Pow(L, k - d - 1));
  }

  /** Digits below `d` depend only on `x % L^d`. */
  lemma DigitBelow(L: nat, x: nat, y: nat, d: nat, k: nat)
    requires L >= 1 && k < d && x % Pow(L, d) == y % Pow(L, d)
    ensures Digit(L, x, k) == Digit(L, y, k)
  {
    PowAdd(L, k, d - k);
    assert Pow(L, d - k) == L * Pow(L, d - k - 1);
    LowDigit(x, Pow(L, k), L, Pow(L, d - k - 1));
    LowDigit(y, Pow(L, k), L, Pow(L, d - k - 1));
  }

  /** The lattice formula keeps the blocks above and below the digit of weight
    * `P` and steps that digit. */
  lemma WrapBlocks(L: nat, P: nat, x: nat, up: bool)
    requires L >= 1 && P >= 1
    ensures var c := Wrap(P, L * P, x, up);
      c / (L * P) == x / (L * P) && (c / P) % L == Step(L, (x / P) % L, up) && c % P == x % P
  {
    var hi, dig, lo := x / (L * P), (x / P) % L, x % P;
    Blocks(x, L, P);
    WrapShape(L, P, hi, dig, lo, up);
    ReadBlocks(L, P, hi, Step(L, dig, up), lo);
  }

  /** The neighbour along dimension `d` agrees with `nid` in every base-L digit
    * except digit `d`, which moves by one step with periodic wrap-around. */
  lemma {:induction false} NeighbourDigits(L: nat, nid: nat, d: nat, up: bool)
    requires L >= 1
    ensures var c := Neighbour(L, nid, d, up);
      Digit(L, c, d) == Step(L, Digit(L, nid, d), up) &&
      c / Pow(L, d + 1) == nid / Pow(L, d + 1) && c % Pow(L, d) == nid % Pow(L, d) &&
      forall k: nat :: k != d ==> Digit(L, c, k) == Digit(L, nid, k)
  {
    NeighbourBlocks(L, nid, d, up);
    var c := Neighbour(L, nid, d, up);
    forall k: nat | k != d
      ensures Digit(L, c, k) == Digit(L, nid, k)
    {
      if k > d {
        DigitAbove(L, c, nid, d, k);
      } else {
        DigitBelow(L, c, nid, d, k);
      }
    }
  }

  lemma NeighbourBlocks(L: nat, nid: nat, d: nat, up: bool)
    requires L >= 1
    ensures var c := Neighbour(L, nid, d, up);
      Digit(L, c, d) == Step(L, Digit(L, nid, d), up) &&
      c / Pow(L, d + 1) == nid / Pow(L, d + 1) && c % Pow(L, d) == nid % Pow(L, d)
  {
    var P := Pow(L, d);
    assert Pow(L, d + 1) == L * P;
    WrapBlocks(L, P, nid, up);
  }

  lemma StepInverse(L: nat, dig: nat, up: bool)
    requires L >= 1 && dig < L
    ensures Step(L, Step(L, dig, up), !up) == dig
  {
    if up && dig + 1 < L {
      DivModUnique(dig + 1, L, 0, dig + 1);
      DivModUnique(dig, L, 0, dig);
    } else if up {
      DivModUnique(dig + 1, L, 1, 0);
      DivModUnique(-1, L, -1, L - 1);
    } else if dig >= 1 {
      DivModUnique(dig - 1, L, 0, dig - 1);
      DivModUnique(dig, L, 0, dig);
    } else {
      DivModUnique(-1, L, -1, L - 1);
      DivModUnique(L, L, 1, 0);
    }
  }

  lemma WrapInverse(L: nat, P: nat, x: nat, up: bool)
    requires L >= 1 && P >= 1
    ensures Wrap(P, L * P, Wrap(P, L * P, x, up), !up) == x
  {
    var hi, dig, lo := x / (L * P), (x / P) % L, x % P;
    Blocks(x, L, P);
    WrapShape(L, P, hi, dig, lo, up);
    WrapShape(L, P, hi, Step(L, dig, up), lo, !up);
    StepInverse(L, dig, up);
  }

  /** Stepping along a dimension and back returns to the same site. */
  lemma {:induction false} NeighbourInverse(L: nat, nid: nat, d: nat, up: bool)
    requires L >= 1
    ensures Neighbour(L, Neighbour(L, nid, d, up), d, !up) == nid
  {
    var P := Pow(L, d);
    assert Pow(L, d + 1) == L * P;
    WrapInverse(L, P, nid, up);
  }

  lemma WrapBelow(L: nat, P: nat, R: nat, x: nat, up: bool)
    requires L >= 1 && P >= 1 && x < (L * P) * R
    ensures Wrap(P, L * P, x, up) < (L * P) * R
  {
    MulPositive(L, P);
    WrapBlocks(L, P, x, up);
    SameBlockBelow(Wrap(P, L * P, x, up), x, L * P, R);
  }

  /** Two numbers with the same quotient by `M` are both below `M * R` or neither. */
  lemma SameBlockBelow(c: nat, x: nat, M: nat, R: nat)
    requires M >= 1 && c / M == x / M && x < M * R
    ensures c < M * R
  {
    var hi := x / M;
    assert hi < R by {
      assert x == hi * M + x % M;
      if hi >= R {
        MulMono(R, hi, M);
      }
    }
    assert c == hi * M + c % M;
    MulMono(hi + 1, R, M);
    MulSucc(M, hi + 1);
  }

  lemma MulMono(a: int, b: int, c: int)
    requires a <= b && c >= 0
    ensures a * c <= b * c
  {
  }

  /** Every neighbour of a lattice site is again a lattice site. */
  lemma {:induction false} NeighbourInRange(L: nat, dim: nat, nid: nat, d: nat, up: bool)
    requires L >= 1 && d < dim && nid < Pow(L, dim)
    ensures Neighbour(L, nid, d, up) < Pow(L, dim)
  {
    var P := Pow(L, d);
    assert Pow(L, d + 1) == L * P;
    PowAdd(L, d + 1, dim - d - 1);
    WrapBelow(L, P, Pow(L, dim - d - 1), nid, up);
  }

  lemma WrapTwo(P: nat, x: nat)
    requires P >= 1
    ensures Wrap(P, 2 * P, x, true) == Wrap(P, 2 * P, x, false)
  {
    var hi, dig, lo := x / (2 * P), (x / P) % 2, x % P;
    Blocks(x, 2, P);
    WrapShape(2, P, hi, dig, lo, true);
    WrapShape(2, P, hi, dig, lo, false);
    DivModUnique(dig + 1, 2, dig, 1 - dig);
    DivModUnique(dig - 1, 2, dig - 1, 1 - dig);
  }

  /** With `linearsize == 2` both neighbours along a dimension are the same site:
    * the source emits it twice and does not deduplicate. */
  lemma {:induction false} TwoSitesCoincide(nid: nat, d: nat)
    ensures Neighbour(2, nid, d, true) == Neighbour(2, nid, d, false)
  {
    var P := Pow(2, d);
    assert Pow(2, d + 1) == 2 * P;
    WrapTwo(P, nid);
  }

  // ---------------------------------------------------------------------
  // The weight list of `_create_nn_unit_weights`
  // ---------------------------------------------------------------------

  /** One emitted entry `(nid, connid, 1.)`. */
  datatype Weight = Weight(pre: nat, post: nat, w: real)

  /** The `connlist` comprehension restricted to dimensions `0 .. n-1`: for each
    * dimension, the `+L^d` neighbour first, then the `-L^d` one. */
  function ConnList(L: nat, n: nat, nid: nat): (r: seq<nat>)
    requires L >= 1 || n == 0
    ensures |r| == 2 * n
    ensures forall d :: 0 <= d < n ==>
      r[2 * d] == Neighbour(L, nid, d, true) && r[2 * d + 1] == Neighbour(L, nid, d, false)
  {
    if n == 0 then []
    else ConnList(L, n - 1, nid) + [Neighbour(L, nid, n - 1, true), Neighbour(L, nid, n - 1, false)]
  }

  /** The entries emitted for one site, in `connlist` order. */
  function SiteWeights(L: nat, dim: nat, nid: nat): (r: seq<Weight>)
    requires L >= 1 || dim == 0
  {
    var cl := ConnList(L, dim, nid);
    seq(|cl|, j requires 0 <= j < |cl| => Weight(nid, cl[j], 1.0))
  }

  /** The entries emitted for sites `0 .. n-1`, in the order of the source's loop. */
  function Lattice(L: nat, dim: nat, n: nat): (r: seq<Weight>)
    requires n == 0 || L >= 1 || dim == 0
  {
    if n == 0 then [] else Lattice(L, dim, n - 1) + SiteWeights(L, dim, n - 1)
  }

  /** Each site contributes exactly `2 * dimension` entries. */
  lemma {:induction false} LatticeLength(L: nat, dim: nat, n: nat)
    requires n == 0 || L >= 1 || dim == 0
    ensures |Lattice(L, dim, n)| == 2 * dim * n
  {
    if n > 0 {
      LatticeLength(L, dim, n - 1);
      MulSucc(2 * dim, n);
    }
  }

  /** Where the entries of site `nid` start: `2 * dimension` entries per earlier site. */
  function SiteStart(dim: nat, nid: nat): nat
  {
    2 * dim * nid
  }

  /** Order: entry `2 * dimension * nid + j` is the `j`-th entry of site `nid`
    * (sites ascending, then dimensions ascending, `+L^d` before `-L^d`). */
  lemma {:induction false} LatticeAt(L: nat, dim: nat, n: nat, nid: nat, j: nat)
    requires L >= 1 || dim == 0
    requires nid < n && j < 2 * dim
    ensures SiteStart(dim, nid) + j < |Lattice(L, dim, n)|
    ensures Lattice(L, dim, n)[SiteStart(dim, nid) + j] == Weight(nid, ConnList(L, dim, nid)[j], 1.0)
  {
    var prefix, site := Lattice(L, dim, n - 1), SiteWeights(L, dim, n - 1);
    var x := Weight(nid, ConnList(L, dim, nid)[j], 1.0);
    assert Lattice(L, dim, n) == prefix + site;
    if nid < n - 1 {
      assert prefix[SiteStart(dim, nid) + j] == x by {
        LatticeAt(L, dim, n - 1, nid, j);
      }
      ConcatLeft(prefix, site, SiteStart(dim, nid) + j);
    } else {
      assert SiteStart(dim, nid) == |prefix| by {
        LatticeLength(L, dim, n - 1);
      }
      assert site[j] == x by {
        SiteWeightsAt(L, dim, nid, j);
      }
      ConcatRight(prefix, site, j);
    }
  }

  lemma SiteWeightsAt(L: nat, dim: nat, nid: nat, j: nat)
    requires (L >= 1 || dim == 0) && j < 2 * dim
    ensures j < |SiteWeights(L, dim, nid)|
    ensures SiteWeights(L, dim, nid)[j] == Weight(nid, ConnList(L, dim, nid)[j], 1.0)
  {
  }

  lemma ConcatLeft<T>(a: seq<T>, b: seq<T>, i: nat)
    requires i < |a|
    ensures i < |a + b| && (a + b)[i] == a[i]
  {
  }

  lemma ConcatRight<T>(a: seq<T>, b: seq<T>, j: nat)
    requires j < |b|
    ensures |a| + j < |a + b| && (a + b)[|a| + j] == b[j]
  {
  }

  /** Every entry is some site's neighbour along some dimension, with weight `1.`. */
  lemma {:induction false} LatticeMember(L: nat, dim: nat, n: nat, w: Weight)
    returns (d: nat, up: bool)
    requires L >= 1 || dim == 0
    requires w in Lattice(L, dim, n)
    ensures L >= 1 && w.pre < n && d < dim
    ensures w == Weight(w.pre, Neighbour(L, w.pre, d, up), 1.0)
  {
    if w in Lattice(L, dim, n - 1) {
      d, up := LatticeMember(L, dim, n - 1, w);
    } else {
      var cl := ConnList(L, dim, n - 1);
      var j :| 0 <= j < |cl| && w == Weight(n - 1, cl[j], 1.0);
      d, up := j / 2, j % 2 == 0;
      assert j == 2 * d || j == 2 * d + 1;
    }
  }

  /** Every entry of the full weight list joins two lattice sites. */
  lemma LatticeInRange(L: nat, dim: nat, w: Weight)
    requires L >= 1 || dim == 0
    requires w in Lattice(L, dim, Pow(L, dim))
    ensures w.pre < Pow(L, dim) && w.post < Pow(L, dim) && w.w == 1.0
  {
    var d, up := LatticeMember(L, dim, Pow(L, dim), w);
    NeighbourInRange(L, dim, w.pre, d, up);
  }

  /** Symmetry: whenever `(a, b, 1.)` is emitted, `(b, a, 1.)` is emitted too. */
  lemma LatticeSymmetric(L: nat, dim: nat, a: nat, b: nat)
    requires L >= 1 || dim == 0
    requires Weight(a, b, 1.0) in Lattice(L, dim, Pow(L, dim))
    ensures Weight(b, a, 1.0) in Lattice(L, dim, Pow(L, dim))
  {
    var n := Pow(L, dim);
    var d, up := LatticeMember(L, dim, n, Weight(a, b, 1.0));
    assert b < n && Neighbour(L, b, d, !up) == a by {
      NeighbourInRange(L, dim, a, d, up);
      NeighbourInverse(L, a, d, up);
    }
    var j := if up then 2 * d + 1 else 2 * d;
    assert ConnList(L, dim, b)[j] == a;
    LatticeHasEntry(L, dim, n, b, j);
  }

  lemma LatticeHasEntry(L: nat, dim: nat, n: nat, nid: nat, j: nat)
    requires L >= 1 || dim == 0
    requires nid < n && j < 2 * dim
    ensures Weight(nid, ConnList(L, dim, nid)[j], 1.0) in Lattice(L, dim, n)
  {
    LatticeAt(L, dim, n, nid, j);
    Indexed(Lattice(L, dim, n), SiteStart(dim, nid) + j, Weight(nid, ConnList(L, dim, nid)[j], 1.0));
  }

  lemma Indexed<T>(s: seq<T>, i: nat, x: T)
    requires i < |s| && s[i] == x
    ensures x in s
  {
  }

  /** `_create_nn_unit_weights`: for each site in ascending order, append one
    * entry per element of its `connlist`. */
  method CreateNnUnitWeights(linearsize: nat, dimension: nat) returns (weights: seq<Weight>)
    ensures linearsize >= 1 || dimension == 0 || Pow(linearsize, dimension) == 0
    ensures weights == Lattice(linearsize, dimension, Pow(linearsize, dimension))
  {
    var sites := Pow(linearsize, dimension);
    weights := [];
    var nid := 0;
    while nid < sites
      invariant nid <= sites
      invariant weights == Lattice(linearsize, dimension, nid)
    {
      var connlist := ConnList(linearsize, dimension, nid);
      var k := 0;
      while k < |connlist|
        invariant k <= |connlist|
        invariant weights == Lattice(linearsize, dimension, nid) + SiteWeights(linearsize, dimension, nid)[..k]
      {
        weights := weights + [Weight(nid, connlist[k], 1.0)];
        k := k + 1;
      }
      nid := nid + 1;
    }
  }

  // ---------------------------------------------------------------------
  // The network object
  // ---------------------------------------------------------------------

  datatype Role = Site(index: nat) | NoiseSources | BiasNeurons
  /** A population handed to the external simulator: what it stands for and its size. */
  datatype Population = Population(role: Role, size: nat)
  datatype Synapse = Excitatory | Inhibitory
  datatype Connector =
    | AllToAll(weight: real)
    | FixedNumberPre(n: nat, weight: real, allowSelfConnections: bool)
  datatype Rng = DefaultRng | NativeRng(seed: nat)
  /** A projection request as handed to the external simulator. */
  datatype Projection = Projection(
    pre: seq<Population>, post: seq<Population>, connector: Connector, target: Synapse, rng: Rng)

  /** The fixed noise and bias projections that `build` issues before the lattice. */
  function BackgroundProjections(neurons: seq<Population>, noise: Population, bias: Population,
                                 ksources: nat, kbiasneurons: nat): seq<Projection>
  {
    [ Projection([noise], [noise], FixedNumberPre(30, 0.3, false), Inhibitory, DefaultRng),
      Projection([noise], neurons, FixedNumberPre(ksources, 0.3, true), Excitatory, NativeRng(42)),
      Projection([noise], neurons, FixedNumberPre(ksources, 0.3, true), Inhibitory, NativeRng(43)),
      Projection([bias], neurons, FixedNumberPre(kbiasneurons, 0.4, true), Inhibitory, NativeRng(44)) ]
  }

  /** One lattice projection per weight entry, between two single-neuron sites. */
  function LatticeProjections(weights: seq<Weight>): (r: seq<Projection>)
    ensures |r| == |weights|
  {
    seq(|weights|, i requires 0 <= i < |weights| =>
      Projection([Population(Site(weights[i].pre), 1)], [Population(Site(weights[i].post), 1)],
                 AllToAll(1.0), Excitatory, DefaultRng))
  }

  lemma TakeNext<T>(s: seq<T>, k: nat)
    requires k < |s|
    ensures s[..k + 1] == s[..k] + [s[k]]
  {
  }

  /** Issuing the projection of one more weight entry extends the lattice projections by it. */
  lemma LatticeProjectionsSnoc(prefix: seq<Projection>, done: seq<Weight>, w: Weight)
    ensures (prefix + LatticeProjections(done))
              + [Projection([Population(Site(w.pre), 1)], [Population(Site(w.post), 1)], AllToAll(1.0), Excitatory, DefaultRng)]
         == prefix + LatticeProjections(done + [w])
  {
    var x := Projection([Population(Site(w.pre), 1)], [Population(Site(w.post), 1)], AllToAll(1.0), Excitatory, DefaultRng);
    assert LatticeProjections(done + [w]) == LatticeProjections(done) + [x];
  }

  class IsingNetwork {
    const linearsize: nat
    const dimension: nat
    const kbiasneurons: nat
    const nbiasneurons: nat
    const nsources: nat
    const ksources: nat
    const duplicates: nat
    var neurons: seq<Population>
    var noise: Population
    var biasneurons: Population
    /** The projections issued to the external simulator so far. */
    var projections: seq<Projection>

    constructor (linearsize: nat, dimension: nat, kbiasneurons: nat, nbiasneurons: nat,
                 nsources: nat, ksources: nat, duplicates: nat)
      ensures this.linearsize == linearsize && this.dimension == dimension
      ensures this.kbiasneurons == kbiasneurons && this.nbiasneurons == nbiasneurons
      ensures this.nsources == nsources && this.ksources == ksources && this.duplicates == duplicates
      ensures neurons == [] && projections == []
    {
      this.linearsize, this.dimension := linearsize, dimension;
      this.kbiasneurons, this.nbiasneurons := kbiasneurons, nbiasneurons;
      this.nsources, this.ksources, this.duplicates := nsources, ksources, duplicates;
      neurons, projections := [], [];
      noise, biasneurons := Population(NoiseSources, 0), Population(BiasNeurons, 0);
    }

    /** `build`: one single-neuron population per lattice site, the noise and bias
      * populations, the background projections and one projection per weight entry;
      * every weight entry names an existing site population. */
    method Build()
      modifies this
      ensures |neurons| == Pow(linearsize, dimension)
      ensures forall i :: 0 <= i < |neurons| ==> neurons[i] == Population(Site(i), 1)
      ensures noise == Population(NoiseSources, nsources)
      ensures biasneurons == Population(BiasNeurons, nbiasneurons)
      ensures projections == old(projections)
        + BackgroundProjections(neurons, noise, biasneurons, ksources, kbiasneurons)
        + LatticeProjections(Lattice(linearsize, dimension, Pow(linearsize, dimension)))
    {
      var weights := CreateNnUnitWeights(linearsize, dimension);
      var sites := Pow(linearsize, dimension);
      var cells := seq(sites, i requires 0 <= i < sites => Population(Site(i), 1));
      var noisePop := Population(NoiseSources, nsources);
      var biasPop := Population(BiasNeurons, nbiasneurons);
      var issued := BackgroundProjections(cells, noisePop, biasPop, ksources, kbiasneurons);
      ghost var background := issued;
      var k := 0;
      while k < |weights|
        invariant k <= |weights| && projections == old(projections)
        invariant issued == background + LatticeProjections(weights[..k])
      {
        var w := weights[k];
        LatticeInRange(linearsize, dimension, w);
        var pre, post := cells[w.pre], cells[w.post];
        ghost var done := weights[..k];
        TakeNext(weights, k);
        LatticeProjectionsSnoc(background, done, w);
        issued := issued + [Projection([pre], [post], AllToAll(1.0), Excitatory, DefaultRng)];
        k := k + 1;
      }
      neurons, noise, biasneurons := cells, noisePop, biasPop;
      projections := projections + issued;
      assert weights[..k] == weights;
    }
  }
}
