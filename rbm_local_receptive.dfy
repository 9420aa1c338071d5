/** Wiring of the restricted Boltzmann machine with local receptive fields:
  * an N x N visible grid, an (N-K+1) x (N-K+1) hidden grid in which hidden
  * unit (oi, oj) sees the K x K window of visible units starting at (oi, oj),
  * and a label population connected to the hidden layer. */
module ReceptiveFields {

  datatype Layer = Visible | Hidden | LabelLayer
  /** A population handed to the external simulator, identified by its layer and grid position. */
  datatype Population = Population(layer: Layer, row: nat, col: nat, size: nat)
  datatype Synapse = Excitatory | Inhibitory
  /** A projection request; every projection of this network uses the same all-to-all connector. */
  datatype Projection = Projection(pre: Population, post: Population, target: Synapse)
  datatype Result<T> = Ok(value: T) | Err(error: SizeError)
  datatype SizeError = VisibleSmallerThanField(n: nat, k: nat)

  function VisibleUnit(i: nat, j: nat): Population { Population(Visible, i, j, 1) }
  function HiddenUnit(i: nat, j: nat): Population { Population(Hidden, i, j, 1) }
  function LabelPopulation(l: nat): Population { Population(LabelLayer, 0, 0, l) }

  /** Number of hidden rows (and columns): `range(N - K + 1)`, empty when that is not positive. */
  function HiddenCount(n: nat, k: nat): (h: nat)
    ensures h > 0 ==> h + k - 1 == n
    ensures k <= n ==> h == n - k + 1
  {
    if n + 1 > k then n + 1 - k else 0
  }

  /** `g` is the n x n grid of single-neuron populations of `layer`: the
    * population at row i, column j is unit (i, j). */
  predicate IsGrid(g: seq<seq<Population>>, layer: Layer, n: nat)
  {
    |g| == n &&
    (forall i :: 0 <= i < n ==> |g[i]| == n) &&
    (forall i, j :: 0 <= i < n && 0 <= j < |g[i]| ==> g[i][j] == Population(layer, i, j, 1))
  }

  // ---------------------------------------------------------------------
  // The projections, level by level as the loops of `build` issue them
  // ---------------------------------------------------------------------

  /** The four projections between one visible unit and one hidden unit. */
  function Quad(v: Population, h: Population): seq<Projection>
  {
    [Projection(v, h, Excitatory), Projection(v, h, Inhibitory),
     Projection(h, v, Excitatory), Projection(h, v, Inhibitory)]
  }

  /** Innermost loop: `innerJ` in `0 .. m-1`. */
  function FieldRow(oi: nat, oj: nat, ii: nat, m: nat): seq<Projection>
  {
    if m == 0 then []
    else FieldRow(oi, oj, ii, m - 1) + Quad(VisibleUnit(oi + ii, oj + m - 1), HiddenUnit(oi, oj))
  }

  lemma FieldRowStep(oi: nat, oj: nat, ii: nat, m: nat)
    ensures FieldRow(oi, oj, ii, m + 1) == FieldRow(oi, oj, ii, m) + Quad(VisibleUnit(oi + ii, oj + m), HiddenUnit(oi, oj))
  {
  }

  /** The whole receptive field of hidden unit (oi, oj), rows `innerI` in `0 .. m-1`. */
  function Field(oi: nat, oj: nat, k: nat, m: nat): seq<Projection>
  {
    if m == 0 then [] else Field(oi, oj, k, m - 1) + FieldRow(oi, oj, m - 1, k)
  }

  /** Hidden units (oi, 0 .. m-1). */
  function FieldsRow(oi: nat, k: nat, m: nat): seq<Projection>
  {
    if m == 0 then [] else FieldsRow(oi, k, m - 1) + Field(oi, m - 1, k, k)
  }

  /** Hidden rows `0 .. m-1` of an `h`-wide hidden grid. */
  function Fields(h: nat, k: nat, m: nat): seq<Projection>
  {
    if m == 0 then [] else Fields(h, k, m - 1) + FieldsRow(m - 1, k, h)
  }

  /** The four projections between a hidden unit and the label population. */
  function LabelQuad(hu: Population, lab: Population): seq<Projection>
  {
    [Projection(hu, lab, Inhibitory), Projection(hu, lab, Excitatory),
     Projection(lab, hu, Inhibitory), Projection(lab, hu, Excitatory)]
  }

  /** Inner hidden-label loop: `inner` only counts, the unit is always `hiddenPop[outer][outer]`. */
  function LabelRow(outer: nat, lab: Population, m: nat): seq<Projection>
  {
    if m == 0 then [] else LabelRow(outer, lab, m - 1) + LabelQuad(HiddenUnit(outer, outer), lab)
  }

  function LabelLinks(h: nat, lab: Population, m: nat): seq<Projection>
  {
    if m == 0 then [] else LabelLinks(h, lab, m - 1) + LabelRow(m - 1, lab, h)
  }

  // ---------------------------------------------------------------------
  // build
  // ---------------------------------------------------------------------

  /** `build`: the label population, the visible and hidden grids, and the
    * projections in the order the loops issue them. Every grid access the
    * loops make is in range, whatever N and K are. */
  method Build(n: nat, k: nat, l: nat)
    returns (labelPop: Population, visiblePop: seq<seq<Population>>,
             hiddenPop: seq<seq<Population>>, projections: seq<Projection>)
    ensures labelPop == LabelPopulation(l)
    ensures IsGrid(visiblePop, Visible, n)
    ensures IsGrid(hiddenPop, Hidden, HiddenCount(n, k))
    ensures projections == Fields(HiddenCount(n, k), k, HiddenCount(n, k))
                         + LabelLinks(HiddenCount(n, k), labelPop, HiddenCount(n, k))
  {
    labelPop := LabelPopulation(l);
    visiblePop := BuildGrid(Visible, n);
    var h := HiddenCount(n, k);
    hiddenPop := BuildGrid(Hidden, h);

    projections := [];
    var outerI := 0;
    while outerI < h
      invariant outerI <= h
      invariant projections == Fields(h, k, outerI)
    {
      projections := AppendFieldsRow(projections, visiblePop, hiddenPop, outerI, k);
      assert projections == Fields(h, k, outerI) + FieldsRow(outerI, k, h);
      outerI := outerI + 1;
    }
    assert outerI == h;
    projections := AppendLabelLinks(projections, hiddenPop, labelPop);
  }

  /** The hidden-label loops of `build`. */
  method AppendLabelLinks(projections: seq<Projection>, hiddenPop: seq<seq<Population>>, labelPop: Population)
    returns (result: seq<Projection>)
    requires IsGrid(hiddenPop, Hidden, |hiddenPop|)
    ensures result == projections + LabelLinks(|hiddenPop|, labelPop, |hiddenPop|)
  {
    var h := |hiddenPop|;
    result := projections;
    var outer := 0;
    while outer < h
      invariant outer <= h
      invariant result == projections + LabelLinks(h, labelPop, outer)
    {
      result := AppendLabelRow(result, hiddenPop[outer][outer], labelPop, outer, h);
      Extend(projections, LabelLinks(h, labelPop, outer), LabelRow(outer, labelPop, h), LabelLinks(h, labelPop, outer + 1));
      outer := outer + 1;
    }
    assert outer == h;
  }

  /** The `outerJ` loop of `build`: the receptive fields of hidden row `oi`. */
  method AppendFieldsRow(projections: seq<Projection>, visiblePop: seq<seq<Population>>,
                         hiddenPop: seq<seq<Population>>, oi: nat, k: nat) returns (result: seq<Projection>)
    requires oi < |hiddenPop| && IsGrid(hiddenPop, Hidden, |hiddenPop|)
    requires |visiblePop| == |hiddenPop| + k - 1 && IsGrid(visiblePop, Visible, |visiblePop|)
    ensures result == projections + FieldsRow(oi, k, |hiddenPop|)
  {
    result := projections;
    var outerJ := 0;
    while outerJ < |hiddenPop|
      invariant outerJ <= |hiddenPop|
      invariant result == projections + FieldsRow(oi, k, outerJ)
    {
      assert hiddenPop[oi][outerJ] == HiddenUnit(oi, outerJ);
      result := AppendField(result, visiblePop, hiddenPop[oi][outerJ], oi, outerJ, k);
      Extend(projections, FieldsRow(oi, k, outerJ), Field(oi, outerJ, k, k), FieldsRow(oi, k, outerJ + 1));
      outerJ := outerJ + 1;
    }
    assert outerJ == |hiddenPop|;
  }

  /** The inner hidden-label loop of `build`: `m` times the four projections
    * between hidden unit (outer, outer) and the label population. */
  method AppendLabelRow(projections: seq<Projection>, hu: Population, labelPop: Population, outer: nat, m: nat)
    returns (result: seq<Projection>)
    requires hu == HiddenUnit(outer, outer)
    ensures result == projections + LabelRow(outer, labelPop, m)
  {
    result := projections;
    var inner := 0;
    while inner < m
      invariant inner <= m
      invariant result == projections + LabelRow(outer, labelPop, inner)
    {
      ghost var before := result;
      result := result + [Projection(hu, labelPop, Inhibitory)];
      result := result + [Projection(hu, labelPop, Excitatory)];
      result := result + [Projection(labelPop, hu, Inhibitory)];
      result := result + [Projection(labelPop, hu, Excitatory)];
      assert result == before + LabelQuad(hu, labelPop);
      Extend(projections, LabelRow(outer, labelPop, inner), LabelQuad(hu, labelPop), LabelRow(outer, labelPop, inner + 1));
      inner := inner + 1;
    }
    assert inner == m;
  }

  /** The two inner loops of the receptive-field part of `build`: the K x K
    * window of hidden unit (oi, oj), appended to `projections`. */
  method AppendField(projections: seq<Projection>, visiblePop: seq<seq<Population>>, hu: Population,
                     oi: nat, oj: nat, k: nat) returns (result: seq<Projection>)
    requires oi + k <= |visiblePop| && IsGrid(visiblePop, Visible, |visiblePop|)
    requires oj + k <= |visiblePop| && hu == HiddenUnit(oi, oj)
    ensures result == projections + Field(oi, oj, k, k)
  {
    result := projections;
    var innerI := 0;
    while innerI < k
      invariant innerI <= k
      invariant result == projections + Field(oi, oj, k, innerI)
    {
      result := AppendFieldLine(result, visiblePop, hu, oi, oj, innerI, k);
      Extend(projections, Field(oi, oj, k, innerI), FieldRow(oi, oj, innerI, k), Field(oi, oj, k, innerI + 1));
      innerI := innerI + 1;
    }
    assert innerI == k;
  }

  /** The innermost loop: visible units (oi + ii, oj .. oj+k-1) and hidden unit (oi, oj). */
  method AppendFieldLine(projections: seq<Projection>, visiblePop: seq<seq<Population>>, hu: Population,
                         oi: nat, oj: nat, ii: nat, k: nat) returns (result: seq<Projection>)
    requires oi + ii < |visiblePop| && oj + k <= |visiblePop| && IsGrid(visiblePop, Visible, |visiblePop|)
    requires hu == HiddenUnit(oi, oj)
    ensures result == projections + FieldRow(oi, oj, ii, k)
  {
    result := projections;
    var innerJ := 0;
    while innerJ < k
      invariant innerJ <= k
      invariant result == projections + FieldRow(oi, oj, ii, innerJ)
    {
      var i := oi + ii;
      var j := oj + innerJ;
      var v := visiblePop[i][j];
      assert v == VisibleUnit(i, j);
      ghost var before := result;
      result := result + [Projection(v, hu, Excitatory)];
      result := result + [Projection(v, hu, Inhibitory)];
      result := result + [Projection(hu, v, Excitatory)];
      result := result + [Projection(hu, v, Inhibitory)];
      assert result == before + Quad(v, hu);
      FieldRowStep(oi, oj, ii, innerJ);
      Extend(projections, FieldRow(oi, oj, ii, innerJ), Quad(v, hu), FieldRow(oi, oj, ii, innerJ + 1));
      innerJ := innerJ + 1;
    }
    assert innerJ == k;
  }

  /** Appending the next piece of a specification to a list that already
    * ends with its first part. */
  lemma Extend<T>(p: seq<T>, done: seq<T>, more: seq<T>, whole: seq<T>)
    requires whole == done + more
    ensures (p + done) + more == p + whole
  {
  }

  /** The population loops of `build`: `rows` lists of `rows` single-neuron populations. */
  method BuildGrid(layer: Layer, rows: nat) returns (grid: seq<seq<Population>>)
    ensures IsGrid(grid, layer, rows)
  {
    grid := [];
    var outer := 0;
    while outer < rows
      invariant outer <= rows && |grid| == outer
      invariant forall i :: 0 <= i < outer ==> |grid[i]| == rows
      invariant forall i, j :: 0 <= i < outer && 0 <= j < |grid[i]| ==> grid[i][j] == Population(layer, i, j, 1)
    {
      var neurons := [];
      var inner := 0;
      while inner < rows
        invariant inner <= rows && |neurons| == inner
        invariant forall j :: 0 <= j < inner ==> neurons[j] == Population(layer, outer, j, 1)
      {
        neurons := neurons + [Population(layer, outer, inner, 1)];
        inner := inner + 1;
      }
      grid := grid + [neurons];
      outer := outer + 1;
    }
  }

  /** `main`'s guard: a visible layer narrower than the receptive field is
    * rejected before anything is built; otherwise the network is built. */
  method GuardedBuild(n: nat, k: nat, l: nat) returns (r: Result<seq<Projection>>)
    ensures r.Err? <==> n < k
    ensures r.Err? ==> r.error == VisibleSmallerThanField(n, k)
    ensures r.Ok? ==> r.value == Fields(HiddenCount(n, k), k, HiddenCount(n, k))
                               + LabelLinks(HiddenCount(n, k), LabelPopulation(l), HiddenCount(n, k))
    ensures r.Ok? ==> |r.value| == 4 * k * k * (n - k + 1) * (n - k + 1) + 4 * (n - k + 1) * (n - k + 1)
    ensures r.Ok? ==> forall p :: p in r.value && p.pre.layer == Visible ==> p.pre.row < n && p.pre.col < n
    ensures r.Ok? ==> forall p :: p in r.value && p.post.layer == Visible ==> p.post.row < n && p.post.col < n
  {
    if n < k {
      return Err(VisibleSmallerThanField(n, k));
    }
    var labelPop, visiblePop, hiddenPop, projections := Build(n, k, l);
    var h := HiddenCount(n, k);
    BuildCount(n, k, l);
    forall p | p in projections
      ensures p.pre.layer == Visible ==> p.pre.row < n && p.pre.col < n
      ensures p.post.layer == Visible ==> p.post.row < n && p.post.col < n
    {
      if p in Fields(h, k, h) {
        FieldsInGrid(n, k, p);
      } else {
        LabelLinksMember(h, labelPop, h, p);
      }
    }
    r := Ok(projections);
  }

  // ---------------------------------------------------------------------
  // Counting
  // ---------------------------------------------------------------------

  lemma MulSucc(a: int, m: int)
    ensures a * m == a * (m - 1) + a
  {
  }

  lemma {:induction false} FieldRowLength(oi: nat, oj: nat, ii: nat, m: nat)
    ensures |FieldRow(oi, oj, ii, m)| == 4 * m
  {
    if m > 0 {
      FieldRowLength(oi, oj, ii, m - 1);
    }
  }

  lemma {:induction false} FieldLength(oi: nat, oj: nat, k: nat, m: nat)
    ensures |Field(oi, oj, k, m)| == (4 * k) * m
  {
    if m > 0 {
      FieldLength(oi, oj, k, m - 1);
      FieldRowLength(oi, oj, m - 1, k);
      MulSucc(4 * k, m);
    }
  }

  lemma {:induction false} FieldsRowLength(oi: nat, k: nat, m: nat)
    ensures |FieldsRow(oi, k, m)| == (4 * k * k) * m
  {
    if m > 0 {
      FieldsRowLength(oi, k, m - 1);
      FieldLength(oi, m - 1, k, k);
      MulSucc(4 * k * k, m);
    }
  }

  /** Each hidden unit issues `4 * K * K` projections. */
  lemma {:induction false} FieldsLength(h: nat, k: nat, m: nat)
    ensures |Fields(h, k, m)| == (4 * k * k * h) * m
  {
    if m > 0 {
      FieldsLength(h, k, m - 1);
      FieldsRowLength(m - 1, k, h);
      MulSucc(4 * k * k * h, m);
    }
  }

  lemma {:induction false} LabelRowLength(outer: nat, lab: Population, m: nat)
    ensures |LabelRow(outer, lab, m)| == 4 * m
  {
    if m > 0 {
      LabelRowLength(outer, lab, m - 1);
    }
  }

  lemma {:induction false} LabelLinksLength(h: nat, lab: Population, m: nat)
    ensures |LabelLinks(h, lab, m)| == (4 * h) * m
  {
    if m > 0 {
      LabelLinksLength(h, lab, m - 1);
      LabelRowLength(m - 1, lab, h);
      MulSucc(4 * h, m);
    }
  }

  /** `build` issues `4 * K^2 * H^2` field projections and `4 * H^2` label projections. */
  lemma BuildCount(n: nat, k: nat, l: nat)
    ensures var h := HiddenCount(n, k);
      |Fields(h, k, h)| == 4 * k * k * h * h &&
      |LabelLinks(h, LabelPopulation(l), h)| == 4 * h * h
  {
    var h := HiddenCount(n, k);
    FieldsLength(h, k, h);
    LabelLinksLength(h, LabelPopulation(l), h);
  }

  // ---------------------------------------------------------------------
  // Which units are wired
  // ---------------------------------------------------------------------

  /** Edges issued by the innermost loop: hidden unit (oi, oj) and visible
    * unit (oi + ii, c) with oj <= c < oj + m. */
  predicate LineEdge(hu: Population, v: Population, oi: nat, oj: nat, ii: nat, m: nat)
  {
    hu == HiddenUnit(oi, oj) && v == VisibleUnit(oi + ii, v.col) && oj <= v.col < oj + m
  }

  /** Edges between hidden unit (oi, oj) and visible rows oi .. oi+m-1 of its window. */
  predicate WindowEdge(hu: Population, v: Population, oi: nat, oj: nat, k: nat, m: nat)
  {
    hu == HiddenUnit(oi, oj) && v == VisibleUnit(v.row, v.col) &&
    oi <= v.row < oi + m && oj <= v.col < oj + k
  }

  /** Edges between hidden unit (oi, c), c < cols, and its K x K window. */
  predicate RowEdge(hu: Population, v: Population, oi: nat, cols: nat, k: nat)
  {
    hu == HiddenUnit(oi, hu.col) && hu.col < cols && WindowEdge(hu, v, oi, hu.col, k, k)
  }

  /** A hidden unit and a visible unit inside its K x K window, the hidden unit
    * lying in rows 0 .. rows-1 and columns 0 .. cols-1 of the hidden grid. */
  predicate FieldEdge(hu: Population, v: Population, rows: nat, cols: nat, k: nat)
  {
    hu == HiddenUnit(hu.row, hu.col) && hu.row < rows && hu.col < cols &&
    WindowEdge(hu, v, hu.row, hu.col, k, k)
  }

  lemma QuadMember(v: Population, hu: Population, p: Projection)
    ensures p in Quad(v, hu) <==> (p.pre == v && p.post == hu) || (p.pre == hu && p.post == v)
  {
    if (p.pre == v && p.post == hu) || (p.pre == hu && p.post == v) {
      match p.target
      case Excitatory =>
      case Inhibitory =>
    }
  }

  // In the inductions below the predecessor `prev` is named: an argument
  // written `m - 1` does not match the terms of the recursive call's contract.

  lemma {:induction false} FieldRowMember(oi: nat, oj: nat, ii: nat, m: nat, p: Projection)
    ensures p in FieldRow(oi, oj, ii, m) <==>
      LineEdge(p.post, p.pre, oi, oj, ii, m) || LineEdge(p.pre, p.post, oi, oj, ii, m)
  {
    if m > 0 {
      var prev := m - 1;
      assert FieldRow(oi, oj, ii, m) == FieldRow(oi, oj, ii, prev) + Quad(VisibleUnit(oi + ii, oj + prev), HiddenUnit(oi, oj));
      FieldRowMember(oi, oj, ii, prev, p);
      QuadMember(VisibleUnit(oi + ii, oj + prev), HiddenUnit(oi, oj), p);
    }
  }

  lemma {:induction false} FieldMember(oi: nat, oj: nat, k: nat, m: nat, p: Projection)
    ensures p in Field(oi, oj, k, m) <==>
      WindowEdge(p.post, p.pre, oi, oj, k, m) || WindowEdge(p.pre, p.post, oi, oj, k, m)
  {
    if m > 0 {
      var prev := m - 1;
      assert Field(oi, oj, k, m) == Field(oi, oj, k, prev) + FieldRow(oi, oj, prev, k);
      FieldMember(oi, oj, k, prev, p);
      FieldRowMember(oi, oj, prev, k, p);
    }
  }

  lemma {:induction false} FieldsRowMember(oi: nat, k: nat, m: nat, p: Projection)
    ensures p in FieldsRow(oi, k, m) <==> RowEdge(p.post, p.pre, oi, m, k) || RowEdge(p.pre, p.post, oi, m, k)
  {
    if m > 0 {
      var prev := m - 1;
      assert FieldsRow(oi, k, m) == FieldsRow(oi, k, prev) + Field(oi, prev, k, k);
      FieldsRowMember(oi, k, prev, p);
      FieldMember(oi, prev, k, k, p);
    }
  }

  lemma FieldEdgeStep(hu: Population, v: Population, m: nat, prev: nat, h: nat, k: nat)
    requires m == prev + 1
    ensures FieldEdge(hu, v, m, h, k) <==> FieldEdge(hu, v, prev, h, k) || RowEdge(hu, v, prev, h, k)
  {
  }

  /** The projections of the receptive-field loops are exactly the links, in
    * either direction, between a hidden unit and a visible unit of its window. */
  lemma {:induction false} FieldsMember(h: nat, k: nat, m: nat, p: Projection)
    ensures p in Fields(h, k, m) <==> FieldEdge(p.post, p.pre, m, h, k) || FieldEdge(p.pre, p.post, m, h, k)
  {
    if m > 0 {
      var prev := m - 1;
      assert Fields(h, k, m) == Fields(h, k, prev) + FieldsRow(prev, k, h);
      FieldsMember(h, k, prev, p);
      FieldsRowMember(prev, k, h, p);
      FieldEdgeStep(p.post, p.pre, m, prev, h, k);
      FieldEdgeStep(p.pre, p.post, m, prev, h, k);
    }
  }

  /** Hidden unit (oi, oj) is wired to visible unit (i, j), in both directions and
    * with both synapse types, iff (i, j) lies in its K x K window. */
  lemma Wired(n: nat, k: nat, oi: nat, oj: nat, i: nat, j: nat, t: Synapse)
    ensures var h := HiddenCount(n, k);
      var toHidden := Projection(VisibleUnit(i, j), HiddenUnit(oi, oj), t);
      var toVisible := Projection(HiddenUnit(oi, oj), VisibleUnit(i, j), t);
      (toHidden in Fields(h, k, h) <==> oi < h && oj < h && oi <= i < oi + k && oj <= j < oj + k) &&
      (toVisible in Fields(h, k, h) <==> oi < h && oj < h && oi <= i < oi + k && oj <= j < oj + k)
  {
    var h := HiddenCount(n, k);
    FieldsMember(h, k, h, Projection(VisibleUnit(i, j), HiddenUnit(oi, oj), t));
    FieldsMember(h, k, h, Projection(HiddenUnit(oi, oj), VisibleUnit(i, j), t));
  }

  /** Every receptive-field projection joins one visible and one hidden unit,
    * and stays inside both grids: visible indices below N, hidden indices
    * below N - K + 1. */
  lemma FieldsInGrid(n: nat, k: nat, p: Projection)
    requires p in Fields(HiddenCount(n, k), k, HiddenCount(n, k))
    ensures (p.pre.layer == Visible && p.post.layer == Hidden) || (p.pre.layer == Hidden && p.post.layer == Visible)
    ensures p.pre.layer == Visible ==> p.pre.row < n && p.pre.col < n
    ensures p.post.layer == Visible ==> p.post.row < n && p.post.col < n
    ensures p.pre.layer == Hidden ==> p.pre.row < HiddenCount(n, k) && p.pre.col < HiddenCount(n, k)
    ensures p.post.layer == Hidden ==> p.post.row < HiddenCount(n, k) && p.post.col < HiddenCount(n, k)
  {
    var h := HiddenCount(n, k);
    FieldsMember(h, k, h, p);
  }

  // ---------------------------------------------------------------------
  // The hidden-label loop uses diagonal hidden units only
  // ---------------------------------------------------------------------

  lemma LabelQuadMember(hu: Population, lab: Population, p: Projection)
    ensures p in LabelQuad(hu, lab) <==> (p.pre == hu && p.post == lab) || (p.pre == lab && p.post == hu)
  {
    if (p.pre == hu && p.post == lab) || (p.pre == lab && p.post == hu) {
      match p.target
      case Excitatory =>
      case Inhibitory =>
    }
  }

  lemma {:induction false} LabelRowMember(outer: nat, lab: Population, m: nat, p: Projection)
    ensures p in LabelRow(outer, lab, m) <==>
      m > 0 && ((p.pre == HiddenUnit(outer, outer) && p.post == lab) ||
                (p.pre == lab && p.post == HiddenUnit(outer, outer)))
  {
    if m > 0 {
      var prev := m - 1;
      assert LabelRow(outer, lab, m) == LabelRow(outer, lab, prev) + LabelQuad(HiddenUnit(outer, outer), lab);
      LabelRowMember(outer, lab, prev, p);
      LabelQuadMember(HiddenUnit(outer, outer), lab, p);
    }
  }

  /** A diagonal hidden unit (d, d) with d < m. */
  predicate Diagonal(hu: Population, m: nat)
  {
    hu == HiddenUnit(hu.row, hu.row) && hu.row < m
  }

  /** A projection of the label loops joins the label population with a
    * diagonal hidden unit (d, d), d < H, and nothing else. */
  lemma {:induction false} LabelLinksMember(h: nat, lab: Population, m: nat, p: Projection)
    ensures p in LabelLinks(h, lab, m) <==>
      h > 0 && ((Diagonal(p.pre, m) && p.post == lab) || (p.pre == lab && Diagonal(p.post, m)))
  {
    if m > 0 {
      var prev := m - 1;
      assert LabelLinks(h, lab, m) == LabelLinks(h, lab, prev) + LabelRow(prev, lab, h);
      LabelLinksMember(h, lab, prev, p);
      LabelRowMember(prev, lab, h, p);
    }
  }

  /** Off-diagonal hidden units never reach the label population. */
  lemma OffDiagonalUnwired(n: nat, k: nat, l: nat, oi: nat, oj: nat, t: Synapse)
    requires oi != oj
    ensures var h, lab := HiddenCount(n, k), LabelPopulation(l);
      Projection(HiddenUnit(oi, oj), lab, t) !in LabelLinks(h, lab, h) &&
      Projection(lab, HiddenUnit(oi, oj), t) !in LabelLinks(h, lab, h)
  {
    var h, lab := HiddenCount(n, k), LabelPopulation(l);
    LabelLinksMember(h, lab, h, Projection(HiddenUnit(oi, oj), lab, t));
    LabelLinksMember(h, lab, h, Projection(lab, HiddenUnit(oi, oj), t));
  }

  /** Each diagonal hidden unit is connected to the label population once per
    * iteration of the inner loop, i.e. H times in each direction and type. */
  lemma {:induction false} LabelLinksMultiplicity(h: nat, lab: Population, m: nat, d: nat, t: Synapse)
    requires lab.layer == LabelLayer
    ensures multiset(LabelLinks(h, lab, m))[Projection(HiddenUnit(d, d), lab, t)] == (if d < m then h else 0)
    ensures multiset(LabelLinks(h, lab, m))[Projection(lab, HiddenUnit(d, d), t)] == (if d < m then h else 0)
  {
    if m > 0 {
      var prev := m - 1;
      LabelLinksMultiplicity(h, lab, prev, d, t);
      LabelLinksStep(h, lab, m, prev, d, t);
    }
  }

  /** Outer iteration `prev` adds `H` links each way for unit (prev, prev) and none for another unit. */
  lemma LabelLinksStep(h: nat, lab: Population, m: nat, prev: nat, d: nat, t: Synapse)
    requires lab.layer == LabelLayer && m == prev + 1
    ensures multiset(LabelLinks(h, lab, m))[Projection(HiddenUnit(d, d), lab, t)]
         == multiset(LabelLinks(h, lab, prev))[Projection(HiddenUnit(d, d), lab, t)] + (if d == prev then h else 0)
    ensures multiset(LabelLinks(h, lab, m))[Projection(lab, HiddenUnit(d, d), t)]
         == multiset(LabelLinks(h, lab, prev))[Projection(lab, HiddenUnit(d, d), t)] + (if d == prev then h else 0)
  {
    LabelRowMultiplicity(prev, lab, h, d, t);
    LabelLinksUnfold(h, lab, m, prev);
    CountSplit(LabelLinks(h, lab, m), LabelLinks(h, lab, prev), LabelRow(prev, lab, h),
               Projection(HiddenUnit(d, d), lab, t), if d == prev then h else 0);
    CountSplit(LabelLinks(h, lab, m), LabelLinks(h, lab, prev), LabelRow(prev, lab, h),
               Projection(lab, HiddenUnit(d, d), t), if d == prev then h else 0);
  }

  lemma LabelLinksUnfold(h: nat, lab: Population, m: nat, prev: nat)
    requires m == prev + 1
    ensures LabelLinks(h, lab, m) == LabelLinks(h, lab, prev) + LabelRow(prev, lab, h)
  {
  }

  /** Occurrences in a concatenation add up. */
  lemma CountSplit<T>(all: seq<T>, a: seq<T>, b: seq<T>, x: T, k: nat)
    requires all == a + b && multiset(b)[x] == k
    ensures multiset(all)[x] == multiset(a)[x] + k
  {
    CountAppend(a, b, x);
  }

  lemma CountAppend<T>(a: seq<T>, b: seq<T>, x: T)
    ensures multiset(a + b)[x] == multiset(a)[x] + multiset(b)[x]
  {
  }

  lemma LabelQuadMultiplicity(hu: Population, lab: Population, d: nat, t: Synapse)
    requires lab.layer == LabelLayer && hu.layer == Hidden
    ensures multiset(LabelQuad(hu, lab))[Projection(HiddenUnit(d, d), lab, t)] == (if hu == HiddenUnit(d, d) then 1 else 0)
    ensures multiset(LabelQuad(hu, lab))[Projection(lab, HiddenUnit(d, d), t)] == (if hu == HiddenUnit(d, d) then 1 else 0)
  {
    var x := Projection(HiddenUnit(d, d), lab, t);
    var y := Projection(lab, HiddenUnit(d, d), t);
    var q := LabelQuad(hu, lab);
    assert q == [q[0]] + [q[1]] + [q[2]] + [q[3]];
    assert multiset(q) == multiset{q[0]} + multiset{q[1]} + multiset{q[2]} + multiset{q[3]};
    assert q[2] != x && q[3] != x;
    assert q[0] != y && q[1] != y;
    match t
    case Excitatory => assert q[0] != x && q[2] != y;
    case Inhibitory => assert q[1] != x && q[3] != y;
  }

  lemma {:induction false} LabelRowMultiplicity(outer: nat, lab: Population, m: nat, d: nat, t: Synapse)
    requires lab.layer == LabelLayer
    ensures multiset(LabelRow(outer, lab, m))[Projection(HiddenUnit(d, d), lab, t)] == (if d == outer then m else 0)
    ensures multiset(LabelRow(outer, lab, m))[Projection(lab, HiddenUnit(d, d), t)] == (if d == outer then m else 0)
  {
    if m > 0 {
      var prev := m - 1;
      LabelRowMultiplicity(outer, lab, prev, d, t);
      LabelQuadMultiplicity(HiddenUnit(outer, outer), lab, d, t);
      assert LabelRow(outer, lab, m) == LabelRow(outer, lab, prev) + LabelQuad(HiddenUnit(outer, outer), lab);
      assert multiset(LabelRow(outer, lab, m))
          == multiset(LabelRow(outer, lab, prev)) + multiset(LabelQuad(HiddenUnit(outer, outer), lab));
    }
  }
}
