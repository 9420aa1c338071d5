/** Bookkeeping of the cortical column benchmark: the order of population
  * sizes, the projections issued between the eight populations, the running
  * connection total, the per-projection synapse loss and the boolean parsing
  * of command-line flags. */
module Cortical {
  import opened ColumnParams

  // ---------------------------------------------------------------------
  // Boolean command-line flags

  datatype Result<T> = Ok(value: T) | Err(message: string)

  /** A flag value: already a boolean, or text to be parsed. */
  datatype BoolArg = Flag(b: bool) | Text(s: string)

  const TrueWords: seq<string> := ["yes", "true", "t", "y", "1"]
  const FalseWords: seq<string> := ["no", "false", "f", "n", "0"]

  /** ASCII lower case of one character. */
  function LowerChar(c: char): char
  {
    if 'A' <= c <= 'Z' then (c as int + 32) as char else c
  }

  function Lower(s: string): string
  {
    seq(|s|, i requires 0 <= i < |s| => LowerChar(s[i]))
  }

  /** `s` and `w` spell the same word up to letter case. */
  predicate SameIgnoringCase(s: string, w: string)
  {
    |s| == |w| && forall i :: 0 <= i < |s| ==> LowerChar(s[i]) == LowerChar(w[i])
  }

  /** A boolean passes through; text is true exactly when it is one of the
    * true words and false exactly when it is one of the false words, in any
    * letter case; any other text is an error. */
  function Str2Bool(v: BoolArg): (r: Result<bool>)
    ensures v.Flag? ==> r == Ok(v.b)
    ensures v.Text? ==> (r == Ok(true) <==> exists w :: w in TrueWords && SameIgnoringCase(v.s, w))
    ensures v.Text? ==> (r == Ok(false) <==> exists w :: w in FalseWords && SameIgnoringCase(v.s, w))
    ensures r.Err? <==> v.Text? && forall w :: w in TrueWords + FalseWords ==> !SameIgnoringCase(v.s, w)
  {
    match v
    case Flag(b) => Ok(b)
    case Text(s) =>
      LowerMatches(s, TrueWords);
      LowerMatches(s, FalseWords);
      if Lower(s) in TrueWords then Ok(true)
      else if Lower(s) in FalseWords then Ok(false)
      else Err("Boolean value expected.")
  }

  /** For a list of lower-case words, `Lower(s)` is one of them exactly when
    * `s` equals one of them up to letter case. */
  lemma LowerMatches(s: string, words: seq<string>)
    requires forall w :: w in words ==> Lower(w) == w
    ensures Lower(s) in words <==> exists w :: w in words && SameIgnoringCase(s, w)
  {
    if Lower(s) in words {
      assert SameIgnoringCase(s, Lower(s));
    }
    forall w | w in words && SameIgnoringCase(s, w)
      ensures Lower(s) == w
    {
      assert Lower(w) == w;
      assert forall i :: 0 <= i < |s| ==> Lower(s)[i] == w[i] by {
        forall i | 0 <= i < |s| ensures Lower(s)[i] == w[i] {
          assert Lower(w)[i] == LowerChar(w[i]);
        }
      }
    }
  }

  /** Python's spelling of a boolean. */
  function BoolText(b: bool): string
  {
    if b then "True" else "False"
  }

  /** A boolean printed the way Python prints it parses back to itself. */
  lemma Str2BoolBoolText(b: bool)
    ensures Str2Bool(Text(BoolText(b))) == Ok(b)
  {
    if b {
      assert SameIgnoringCase("True", "true");
    } else {
      assert SameIgnoringCase("False", "false");
    }
  }

  // ---------------------------------------------------------------------
  // Projections between the eight populations

  datatype SynapseType = Excitatory | Inhibitory

  /** One connection: source neuron, target neuron, weight and delay. */
  datatype Edge = Edge(pre: int, post: int, weight: real, delay: real)

  /** A projection record: source and target population, synapse type, the
    * explicit connection list and the label. */
  datatype Projection = Projection(source: string, target: string, synapse: SynapseType,
                                   edges: seq<Edge>, name: string)

  /** The draws of one pair: source indices and target indices. */
  type Draws = (seq<int>, seq<int>)

  /** The generator after reseeding, as a table: for a source size, a target
    * size and a number of connections, the source and target indices it
    * draws. Reseeding before every pair makes the draws depend on these three
    * numbers only, so pairs that agree on them get the same draws. */
  type Rng = map<(nat, nat, nat), Draws>

  /** `n` draws of each kind, each in `[0, size)` of its population. */
  predicate DrawsWithin(d: Draws, sourceSize: nat, targetSize: nat, n: nat)
  {
    |d.0| == n && |d.1| == n &&
    (forall i :: 0 <= i < n ==> 0 <= d.0[i] < sourceSize) &&
    (forall i :: 0 <= i < n ==> 0 <= d.1[i] < targetSize)
  }

  /** Number of (target, source) pairs; pair `p` has target `p / 8` and source `p % 8`. */
  const Pairs: nat := 64

  /** An 8x8 table of connection counts, indexed [target][source]. */
  predicate IsTable(counts: seq<seq<nat>>)
  {
    |counts| == |Label| && forall t :: 0 <= t < |counts| ==> |counts[t]| == |Label|
  }

  function Count(counts: seq<seq<nat>>, p: nat): nat
    requires IsTable(counts) && p < Pairs
  {
    counts[p / 8][p % 8]
  }

  /** The generator's key for pair `p`: source size, target size, count. */
  function DrawKey(sizes: seq<nat>, counts: seq<seq<nat>>, p: nat): (nat, nat, nat)
    requires IsTable(counts) && |sizes| == |Label| && p < Pairs
  {
    (sizes[p % 8], sizes[p / 8], Count(counts, p))
  }

  /** `sizes` holds the eight population sizes in label order and the
    * generator draws, for every pair with connections, that many indices
    * into each of the two populations. No pair with connections can then
    * join an empty population. */
  ghost predicate Supplies(rng: Rng, sizes: seq<nat>, counts: seq<seq<nat>>)
  {
    IsTable(counts) && |sizes| == |Label| &&
    forall p {:trigger DrawKey(sizes, counts, p)} :: 0 <= p < Pairs && Count(counts, p) > 0 ==>
      DrawKey(sizes, counts, p) in rng &&
      DrawsWithin(rng[DrawKey(sizes, counts, p)], sizes[p % 8], sizes[p / 8], Count(counts, p))
  }

  /** The connection list of pair `p`, built from the draws. */
  function PairEdges(d: Draws, n: nat): seq<Edge>
    requires |d.0| == n && |d.1| == n
  {
    seq(n, i requires 0 <= i < n => Edge(d.0[i], d.1[i], 1.0, 0.0))
  }

  /** The projection issued for pair `p`: the source population's synapse
    * type, one connection per drawn (source, target) index pair, weight 1 and
    * delay 0, labelled `source-target`. */
  function PairProjection(sizes: seq<nat>, rng: Rng, counts: seq<seq<nat>>, p: nat): Projection
    requires IsTable(counts) && p < Pairs && Supplies(rng, sizes, counts)
    requires Count(counts, p) > 0
  {
    var source := Label[p % 8];
    var target := Label[p / 8];
    var n := Count(counts, p);
    var d := rng[DrawKey(sizes, counts, p)];
    var synapse := if source[|source| - 1] == 'e' then Excitatory else Inhibitory;
    Projection(source, target, synapse, PairEdges(d, n), source + "-" + target)
  }

  /** The projection of pair `p` runs from the `p % 8`-th to the `p / 8`-th
    * population, is excitatory exactly when its source population is, and
    * lists exactly the pair's count of connections, each between neurons of
    * the two populations, with weight 1 and delay 0. */
  lemma PairProjectionSpec(sizes: seq<nat>, rng: Rng, counts: seq<seq<nat>>, p: nat)
    requires IsTable(counts) && p < Pairs && Supplies(rng, sizes, counts)
    requires Count(counts, p) > 0
    ensures var r := PairProjection(sizes, rng, counts, p);
      r.source == Label[p % 8] && r.target == Label[p / 8] &&
      r.name == r.source + "-" + r.target &&
      (r.synapse == Excitatory <==> p % 2 == 0) &&
      |r.edges| == Count(counts, p) &&
      forall e :: e in r.edges ==>
        0 <= e.pre < sizes[p % 8] && 0 <= e.post < sizes[p / 8] &&
        e.weight == 1.0 && e.delay == 0.0
  {
  }

  /** The pairs among the first `k` that have connections, in loop order. */
  function Connected(counts: seq<seq<nat>>, k: nat): (r: seq<nat>)
    requires IsTable(counts) && k <= Pairs
    ensures forall i :: 0 <= i < |r| ==> r[i] < k && Count(counts, r[i]) > 0
  {
    if k == 0 then []
    else
      var prev := k - 1;
      Connected(counts, prev) + (if Count(counts, prev) > 0 then [prev] else [])
  }

  /** The connected pairs are listed in increasing order. */
  lemma {:induction false} ConnectedSorted(counts: seq<seq<nat>>, k: nat)
    requires IsTable(counts) && k <= Pairs
    ensures forall i, j :: 0 <= i < j < |Connected(counts, k)| ==> Connected(counts, k)[i] < Connected(counts, k)[j]
  {
    if k > 0 {
      var prev := k - 1;
      ConnectedSorted(counts, prev);
      var before, all := Connected(counts, prev), Connected(counts, k);
      if Count(counts, prev) > 0 {
        assert all == before + [prev];
      } else {
        assert all == before;
      }
    }
  }

  /** A pair is listed exactly when it is among the first `k` and has connections. */
  lemma {:induction false} ConnectedMembers(counts: seq<seq<nat>>, k: nat)
    requires IsTable(counts) && k <= Pairs
    ensures forall p: nat :: p in Connected(counts, k) <==> p < k && Count(counts, p) > 0
  {
    if k > 0 {
      var prev := k - 1;
      ConnectedMembers(counts, prev);
      var before, all := Connected(counts, prev), Connected(counts, k);
      if Count(counts, prev) > 0 {
        assert all == before + [prev];
      } else {
        assert all == before;
      }
    }
  }

  /** The projections issued for the first `k` pairs. */
  function Issued(sizes: seq<nat>, rng: Rng, counts: seq<seq<nat>>, k: nat): seq<Projection>
    requires IsTable(counts) && k <= Pairs && Supplies(rng, sizes, counts)
  {
    if k == 0 then []
    else
      var prev := k - 1;
      Issued(sizes, rng, counts, prev) +
        (if Count(counts, prev) > 0 then [PairProjection(sizes, rng, counts, prev)] else [])
  }

  /** The sum of the counts of the first `k` pairs. */
  function Total(counts: seq<seq<nat>>, k: nat): int
    requires IsTable(counts) && k <= Pairs
  {
    if k == 0 then 0 else var prev := k - 1; Total(counts, prev) + Count(counts, prev)
  }

  /** Issued projection `i` belongs to the `i`-th connected pair: a projection
    * is issued exactly for each pair with connections, in target-major,
    * source-minor order. */
  lemma {:induction false} IssuedConnected(sizes: seq<nat>, rng: Rng, counts: seq<seq<nat>>, k: nat)
    requires IsTable(counts) && k <= Pairs && Supplies(rng, sizes, counts)
    ensures |Issued(sizes, rng, counts, k)| == |Connected(counts, k)|
    ensures forall i :: 0 <= i < |Connected(counts, k)| ==>
      Issued(sizes, rng, counts, k)[i] == PairProjection(sizes, rng, counts, Connected(counts, k)[i])
  {
    if k > 0 {
      var prev := k - 1;
      var before, pairs := Issued(sizes, rng, counts, prev), Connected(counts, prev);
      var all, allPairs := Issued(sizes, rng, counts, k), Connected(counts, k);
      IssuedConnected(sizes, rng, counts, prev);
      if Count(counts, prev) > 0 {
        var q := PairProjection(sizes, rng, counts, prev);
        assert all == before + [q] && allPairs == pairs + [prev];
        forall i | 0 <= i < |allPairs|
          ensures all[i] == PairProjection(sizes, rng, counts, allPairs[i])
        {
          if i < |pairs| {
            assert all[i] == before[i] && allPairs[i] == pairs[i];
          }
        }
      } else {
        assert all == before && allPairs == pairs;
      }
    }
  }

  /** The sum of the connection-list lengths. */
  function EdgeTotal(ps: seq<Projection>): nat
  {
    if ps == [] then 0 else var last := |ps| - 1; EdgeTotal(ps[..last]) + |ps[last].edges|
  }

  /** The connection total counts every pair, but the pairs without
    * connections add nothing: it equals the number of issued connections. */
  lemma {:induction false} TotalIsEdgeTotal(sizes: seq<nat>, rng: Rng, counts: seq<seq<nat>>, k: nat)
    requires IsTable(counts) && k <= Pairs && Supplies(rng, sizes, counts)
    ensures Total(counts, k) == EdgeTotal(Issued(sizes, rng, counts, k))
  {
    if k > 0 {
      var prev := k - 1;
      var before := Issued(sizes, rng, counts, prev);
      TotalIsEdgeTotal(sizes, rng, counts, prev);
      TotalStep(counts, prev, k);
      IssuedStep(sizes, rng, counts, prev, k);
      if Count(counts, prev) > 0 {
        var q := PairProjection(sizes, rng, counts, prev);
        assert |q.edges| == Count(counts, prev) by {
          PairProjectionSpec(sizes, rng, counts, prev);
        }
        EdgeTotalAppend(before, q);
      } else {
        assert before + [] == before;
      }
    }
  }

  lemma EdgeTotalAppend(ps: seq<Projection>, q: Projection)
    ensures EdgeTotal(ps + [q]) == EdgeTotal(ps) + |q.edges|
  {
    assert (ps + [q])[..|ps|] == ps;
  }

  /** The part of `s` before its first '-'. */
  function BeforeDash(s: string): string
  {
    if s == [] || s[0] == '-' then [] else [s[0]] + BeforeDash(s[1..])
  }

  /** Joining with '-' a first part free of '-' keeps that part recoverable. */
  lemma {:induction false} BeforeDashJoin(a: string, b: string)
    requires '-' !in a
    ensures BeforeDash(a + "-" + b) == a
  {
    var x := a + "-" + b;
    if a == [] {
      assert x[0] == '-';
    } else {
      assert x[0] == a[0];
      assert x[1..] == a[1..] + "-" + b;
      BeforeDashJoin(a[1..], b);
    }
  }

  /** Two labels `a-b` and `c-d` whose first parts contain no '-' agree only when their parts do. */
  lemma DashJoinInjective(a: string, b: string, c: string, d: string)
    requires '-' !in a && '-' !in c
    requires a + "-" + b == c + "-" + d
    ensures a == c && b == d
  {
    var x := a + "-" + b;
    BeforeDashJoin(a, b);
    BeforeDashJoin(c, d);
    assert b == x[|a| + 1..] && d == x[|c| + 1..];
  }

  /** No population name contains '-'. */
  lemma LabelsWithoutDash(i: nat)
    requires i < |Label|
    ensures '-' !in Label[i]
  {
  }

  /** Different pairs have different labels. */
  lemma PairLabelsDistinct(sizes: seq<nat>, rng: Rng, counts: seq<seq<nat>>, p: nat, q: nat)
    requires IsTable(counts) && p < Pairs && q < Pairs && Supplies(rng, sizes, counts)
    requires Count(counts, p) > 0 && Count(counts, q) > 0 && p != q
    ensures PairProjection(sizes, rng, counts, p).name != PairProjection(sizes, rng, counts, q).name
  {
    var x := PairProjection(sizes, rng, counts, p);
    var y := PairProjection(sizes, rng, counts, q);
    if x.name == y.name {
      LabelsWithoutDash(p % 8);
      LabelsWithoutDash(q % 8);
      DashJoinInjective(x.source, x.target, y.source, y.target);
      LabelsDistinct();
    }
  }

  /** Issued projections have pairwise distinct labels, so the loss table
    * keyed by label keeps one entry per projection. */
  lemma IssuedLabelsDistinct(sizes: seq<nat>, rng: Rng, counts: seq<seq<nat>>, k: nat)
    requires IsTable(counts) && k <= Pairs && Supplies(rng, sizes, counts)
    ensures forall i, j :: 0 <= i < j < |Issued(sizes, rng, counts, k)| ==>
      Issued(sizes, rng, counts, k)[i].name != Issued(sizes, rng, counts, k)[j].name
  {
    IssuedConnected(sizes, rng, counts, k);
    ConnectedSorted(counts, k);
    var c := Connected(counts, k);
    forall i, j | 0 <= i < j < |Issued(sizes, rng, counts, k)|
      ensures Issued(sizes, rng, counts, k)[i].name != Issued(sizes, rng, counts, k)[j].name
    {
      PairLabelsDistinct(sizes, rng, counts, c[i], c[j]);
    }
  }

  /** Moving on from pair `p` adds its count to the total. */
  lemma TotalStep(counts: seq<seq<nat>>, p: nat, next: nat)
    requires IsTable(counts) && p < Pairs && next == p + 1
    ensures Total(counts, next) == Total(counts, p) + Count(counts, p)
  {
  }

  /** Moving on from pair `p` issues its projection when it has connections. */
  lemma IssuedStep(sizes: seq<nat>, rng: Rng, counts: seq<seq<nat>>, p: nat, next: nat)
    requires IsTable(counts) && p < Pairs && next == p + 1 && Supplies(rng, sizes, counts)
    ensures Issued(sizes, rng, counts, next) ==
      Issued(sizes, rng, counts, p) + (if Count(counts, p) > 0 then [PairProjection(sizes, rng, counts, p)] else [])
  {
  }

  /** Pair `p = 8 * t + s` has target `t` and source `s`. */
  lemma FlatIndex(t: nat, s: nat, p: nat)
    requires s < 8 && p == 8 * t + s
    ensures p % 8 == s && p / 8 == t
  {
  }

  /** The `li`-th layer holds the populations at indices `2 * li` (E) and
    * `2 * li + 1` (I) of label order, named after the layer. */
  lemma LayerPopulations(li: nat, e: nat)
    requires li < |LayerOrder| && e == 2 * li
    ensures LayerOrder[li] in NumNeurons && "E" in NumNeurons[LayerOrder[li]] && "I" in NumNeurons[LayerOrder[li]]
    ensures |LayerOrder[li]| >= 1 && e + 1 < |Label|
    ensures LayerOrder[li][1..] + "e" == Label[e] && NumNeurons[LayerOrder[li]]["E"] == NeuronsAt(e)
    ensures LayerOrder[li][1..] + "i" == Label[e + 1] && NumNeurons[LayerOrder[li]]["I"] == NeuronsAt(e + 1)
  {
    var layer := LayerOrder[li];
    assert e / 2 == li && (e + 1) / 2 == li && e % 2 == 0 && (e + 1) % 2 == 1;
    LabelOrder(e);
    LabelOrder(e + 1);
    TablesCover(layer, "E");
    TablesCover(layer, "I");
    assert PopulationLabel(layer, "E") == Label[e];
    assert PopulationLabel(layer, "I") == Label[e + 1];
  }

  /** The labels of a list of projections, in order. */
  function Names(ps: seq<Projection>): (r: seq<string>)
    ensures |r| == |ps|
  {
    seq(|ps|, i requires 0 <= i < |ps| => ps[i].name)
  }

  lemma NamesAppend(ps: seq<Projection>, q: Projection)
    ensures Names(ps + [q]) == Names(ps) + [q.name]
  {
  }

  /** Label `i` is the label of projection `i`. */
  lemma NamesAt(ps: seq<Projection>)
    ensures forall i :: 0 <= i < |ps| ==> Names(ps)[i] == ps[i].name
  {
  }

  /** A population of `n` neurons scaled by `scale`, rounded toward zero. */
  function Scaled(n: nat, scale: real): (size: nat)
    requires 0.0 <= scale
    ensures size as real <= n as real * scale < size as real + 1.0
  {
    (n as real * scale).Floor
  }

  /** Scaled sizes of the first `k` populations in label order. */
  function Sizes(scale: real, k: nat): (r: seq<nat>)
    requires 0.0 <= scale && k <= |Label|
    ensures |r| == k && forall i :: 0 <= i < k ==> r[i] == Scaled(NeuronsAt(i), scale)
  {
    if k == 0 then [] else var prev := k - 1; Sizes(scale, prev) + [Scaled(NeuronsAt(prev), scale)]
  }

  /** The first `k` populations in label order are in the map with their
    * sizes, and nothing else is. */
  ghost predicate PopulationsUpTo(populations: map<string, nat>, sizes: seq<nat>, k: nat)
    requires k <= |Label| == |sizes|
  {
    (forall i :: 0 <= i < k ==> Label[i] in populations && populations[Label[i]] == sizes[i]) &&
    (forall name :: name in populations ==> name in Label[..k])
  }

  /** Every population in label order is in the map with its size. */
  ghost predicate SizesKnown(populations: map<string, nat>, sizes: seq<nat>)
  {
    |sizes| == |Label| && forall i :: 0 <= i < |Label| ==> Label[i] in populations && populations[Label[i]] == sizes[i]
  }

  /** The population map holds exactly the eight populations, each with its scaled size. */
  ghost predicate PopulationsOf(populations: map<string, nat>, sizes: seq<nat>)
  {
    |sizes| == |Label| && PopulationsUpTo(populations, sizes, |Label|)
  }

  /** Adding the two populations of the next layer extends the map by two labels. */
  lemma LayerAdded(before: map<string, nat>, sizes: seq<nat>, e: nat)
    requires e + 2 <= |Label| == |sizes| && PopulationsUpTo(before, sizes, e)
    ensures PopulationsUpTo(before[Label[e] := sizes[e]][Label[e + 1] := sizes[e + 1]], sizes, e + 2)
  {
    var after := before[Label[e] := sizes[e]][Label[e + 1] := sizes[e + 1]];
    LabelsDistinct();
    forall i | 0 <= i < e
      ensures Label[i] in after && after[Label[i]] == sizes[i]
    {
      assert Label[i] != Label[e] && Label[i] != Label[e + 1];
    }
    assert Label[..e + 2] == Label[..e] + [Label[e], Label[e + 1]];
  }

  // ---------------------------------------------------------------------
  // Synapse loss

  /** One entry of a weight matrix, flattened row by row: NaN where there is
    * no synapse. */
  datatype Weight = Absent | Present(w: real)

  /** The number of synapses, that is, of entries that are not NaN. */
  function Synapses(ws: seq<Weight>): (n: nat)
    ensures n <= |ws|
  {
    if ws == [] then 0 else var last := |ws| - 1; Synapses(ws[..last]) + (if ws[last].Present? then 1 else 0)
  }

  /** The number of positions holding a synapse in `orig` and none in `mapped`. */
  function Dropped(orig: seq<Weight>, mapped: seq<Weight>): nat
    requires |orig| == |mapped|
  {
    if orig == [] then 0
    else
      var last := |orig| - 1;
      Dropped(orig[..last], mapped[..last]) + (if orig[last].Present? && mapped[last].Absent? then 1 else 0)
  }

  /** Lost synapses and all synapses of one projection. */
  datatype Loss = Loss(synLoss: int, totalSyns: nat)

  /** The loss of a projection: the synapses of the original weights that
    * the mapped weights no longer have, out of all original synapses. */
  function SynapseLoss(orig: seq<Weight>, mapped: seq<Weight>): (r: Loss)
    ensures r.totalSyns <= |orig|
    ensures r.synLoss <= r.totalSyns
    ensures r.synLoss == r.totalSyns <==> Synapses(mapped) == 0
  {
    Loss(Synapses(orig) - Synapses(mapped), Synapses(orig))
  }

  /** When the mapping only drops synapses, never adding one where the
    * original has none, the loss is the number of dropped synapses and lies
    * between none and all of them. */
  lemma {:induction false} LossIsDropped(orig: seq<Weight>, mapped: seq<Weight>)
    requires |orig| == |mapped|
    requires forall i :: 0 <= i < |mapped| && mapped[i].Present? ==> orig[i].Present?
    ensures SynapseLoss(orig, mapped).synLoss == Dropped(orig, mapped)
    ensures 0 <= SynapseLoss(orig, mapped).synLoss <= SynapseLoss(orig, mapped).totalSyns
  {
    if orig != [] {
      var last := |orig| - 1;
      LossIsDropped(orig[..last], mapped[..last]);
    }
  }

  /** No label after position `i` repeats label `i`. */
  predicate LastWithLabel(labels: seq<string>, i: nat)
    requires i < |labels|
  {
    forall j :: i < j < |labels| ==> labels[j] != labels[i]
  }

  /** After all pairs, no issued label repeats, so the loss table has an
    * entry of its own for every issued projection. */
  lemma IssuedLabelsLast(sizes: seq<nat>, rng: Rng, counts: seq<seq<nat>>)
    requires Supplies(rng, sizes, counts)
    ensures forall i :: 0 <= i < |Issued(sizes, rng, counts, Pairs)| ==>
      LastWithLabel(Names(Issued(sizes, rng, counts, Pairs)), i)
  {
    var ps := Issued(sizes, rng, counts, Pairs);
    NamesAt(ps);
    IssuedLabelsDistinct(sizes, rng, counts, Pairs);
  }

  /** `table` holds the first `k` labels, each with the loss of the last of
    * the first `k` projections carrying it. */
  ghost predicate TableOf(table: map<string, Loss>, labels: seq<string>, losses: seq<Loss>, k: nat)
    requires k <= |labels| == |losses|
  {
    table.Keys == (set j | 0 <= j < k :: labels[j]) &&
    forall j :: 0 <= j < k && LastWithLabel(labels[..k], j) ==> table[labels[j]] == losses[j]
  }

  /** Entering the next projection's loss under its label extends the table by one projection. */
  lemma TableStep(table: map<string, Loss>, labels: seq<string>, losses: seq<Loss>, k: nat, loss: Loss)
    requires k < |labels| == |losses| && TableOf(table, labels, losses, k) && loss == losses[k]
    ensures TableOf(table[labels[k] := loss], labels, losses, k + 1)
  {
    var after := table[labels[k] := loss];
    assert (set j | 0 <= j < k + 1 :: labels[j]) == (set j | 0 <= j < k :: labels[j]) + {labels[k]};
    forall j | 0 <= j < k + 1 && LastWithLabel(labels[..k + 1], j)
      ensures after[labels[j]] == losses[j]
    {
      if j < k {
        assert labels[..k + 1][k] == labels[k];
        assert LastWithLabel(labels[..k], j);
      }
    }
  }

  /** A table holding all the labels is keyed by exactly the labels and
    * holds, for each, the loss of its last projection. */
  lemma TableDone(table: map<string, Loss>, labels: seq<string>, losses: seq<Loss>)
    requires |labels| == |losses| && TableOf(table, labels, losses, |labels|)
    ensures table.Keys == set j | 0 <= j < |labels| :: labels[j]
    ensures forall j :: 0 <= j < |labels| && LastWithLabel(labels, j) ==> table[labels[j]] == losses[j]
  {
    assert labels[..|labels|] == labels;
  }

  /** The network of the cortical column benchmark. */
  class CorticalNetwork {
    /** Connections counted over every build. */
    var totalConnections: int
    /** Fraction of the full model's neurons the network has. */
    const scale: real
    /** The generator reseeded with the network's seed. */
    const seeded: Rng
    /** Population size by name. */
    var populations: map<string, nat>
    var projections: seq<Projection>
    var projectionLabels: seq<string>

    constructor(scale: real, seeded: Rng)
      ensures this.scale == scale && this.seeded == seeded
      ensures totalConnections == 0
      ensures populations == map[] && projections == [] && projectionLabels == []
    {
      this.scale := scale;
      this.seeded := seeded;
      totalConnections := 0;
      populations := map[];
      projections := [];
      projectionLabels := [];
    }

    /** The population sizes in label order: L2/3 E and I, then L4, L5 and L6. */
    method GetNeuronNumber() returns (numNeurons: seq<nat>)
      ensures |numNeurons| == |Label|
      ensures forall i :: 0 <= i < |Label| ==> numNeurons[i] == NeuronsAt(i)
    {
      numNeurons := [];
      OrdersCover();
      var li := 0;
      while li < |LayerOrder|
        invariant 0 <= li <= |LayerOrder|
        invariant |numNeurons| == 2 * li
        invariant forall i :: 0 <= i < 2 * li ==> numNeurons[i] == NeuronsAt(i)
      {
        var layer := LayerOrder[li];
        var ki := 0;
        while ki < |PopOrder|
          invariant 0 <= ki <= |PopOrder|
          invariant |numNeurons| == 2 * li + ki
          invariant forall i :: 0 <= i < 2 * li + ki ==> numNeurons[i] == NeuronsAt(i)
        {
          var key := PopOrder[ki];
          TablesCover(layer, key);
          LabelOrder(2 * li + ki);
          assert StructureIndex(layer, key) == 2 * li + ki;
          numNeurons := numNeurons + [NumNeurons[layer][key]];
          ki := ki + 1;
        }
        li := li + 1;
      }
    }

    /** Creates the eight populations at their scaled sizes. */
    method SetPopulations()
      requires 0.0 <= scale
      modifies this`populations
      ensures PopulationsOf(populations, Sizes(scale, |Label|))
    {
      ghost var sizes := Sizes(scale, |Label|);
      populations := map[];
      OrdersCover();
      var li := 0;
      ghost var done := 0;
      while li < |LayerOrder|
        invariant 0 <= li <= |LayerOrder| && done == 2 * li
        invariant PopulationsUpTo(populations, sizes, done)
      {
        var layer := LayerOrder[li];
        LayerPopulations(li, done);
        ghost var before := populations;
        populations := populations[layer[1..] + "e" := Scaled(NumNeurons[layer]["E"], scale)];
        populations := populations[layer[1..] + "i" := Scaled(NumNeurons[layer]["I"], scale)];
        LayerAdded(before, sizes, done);
        li := li + 1;
        done := done + 2;
      }
      assert Label[..done] == Label;
    }

    /** The network has its populations and has gone through the first `p`
      * pairs: it holds the projections issued for them, their labels, and the
      * sum of their counts on top of `base`. */
    ghost predicate Progress(counts: seq<seq<nat>>, sizes: seq<nat>, p: nat, base: int)
      requires Supplies(seeded, sizes, counts) && p <= Pairs
      reads this
    {
      SizesKnown(populations, sizes) &&
      projections == Issued(sizes, seeded, counts, p) &&
      projectionLabels == Names(projections) &&
      totalConnections == base + Total(counts, p)
    }

    /** Issues the projections into one target population, sources in label
      * order; `first` is the flat index of the target's first pair. */
    method ConnectTarget(counts: seq<seq<nat>>, sizes: seq<nat>, targetIndex: nat, ghost first: nat, ghost base: int)
      requires targetIndex < |Label| && first == 8 * targetIndex
      requires Supplies(seeded, sizes, counts)
      requires Progress(counts, sizes, first, base)
      modifies this`projections, this`projectionLabels, this`totalConnections
      ensures Progress(counts, sizes, first + 8, base)
    {
      var sourceIndex := 0;
      ghost var p := first;
      // `Label` has eight entries
      while sourceIndex < 8
        invariant 0 <= sourceIndex <= 8 && p == first + sourceIndex
        invariant Progress(counts, sizes, p, base)
      {
        ConnectPair(counts, sizes, targetIndex, sourceIndex, p, base);
        sourceIndex := sourceIndex + 1;
        p := p + 1;
      }
    }

    /** Adds the pair's count to the total and, when it is not zero, issues
      * the projection from the source to the target population; `p` is the
      * pair's flat index. */
    method ConnectPair(counts: seq<seq<nat>>, sizes: seq<nat>, targetIndex: nat, sourceIndex: nat,
                       ghost p: nat, ghost base: int)
      requires targetIndex < |Label| && sourceIndex < |Label| && p == 8 * targetIndex + sourceIndex
      requires Supplies(seeded, sizes, counts)
      requires Progress(counts, sizes, p, base)
      modifies this`projections, this`projectionLabels, this`totalConnections
      ensures Progress(counts, sizes, p + 1, base)
    {
      var sourcePop := Label[sourceIndex];
      var targetPop := Label[targetIndex];
      var synapse := if sourcePop[|sourcePop| - 1] == 'e' then Excitatory else Inhibitory;
      var sourceSize := populations[sourcePop];
      var targetSize := populations[targetPop];
      FlatIndex(targetIndex, sourceIndex, p);
      var n := counts[targetIndex][sourceIndex];
      ghost var issued := Issued(sizes, seeded, counts, p + 1);
      assert totalConnections + n == base + Total(counts, p + 1) by {
        TotalStep(counts, p, p + 1);
      }
      totalConnections := totalConnections + n;
      if n != 0 {
        assert (sourceSize, targetSize, n) == DrawKey(sizes, counts, p);
        var draws := seeded[(sourceSize, targetSize, n)];
        var edges := PairEdges(draws, n);
        var name := sourcePop + "-" + targetPop;
        var projection := Projection(sourcePop, targetPop, synapse, edges, name);
        assert issued == projections + [projection] by {
          IssuedStep(sizes, seeded, counts, p, p + 1);
        }
        NamesAppend(projections, projection);
        projections := projections + [projection];
        projectionLabels := projectionLabels + [name];
      } else {
        assert issued == projections by {
          IssuedStep(sizes, seeded, counts, p, p + 1);
        }
      }
    }

    /** Creates the populations and issues one projection for every pair with
      * connections, targets in label order and, within a target, sources in
      * label order. Every pair's count is added to the running total, pairs
      * without connections included. */
    method Build(counts: seq<seq<nat>>)
      requires 0.0 <= scale && Supplies(seeded, Sizes(scale, |Label|), counts)
      modifies this
      ensures PopulationsOf(populations, Sizes(scale, |Label|))
      ensures projections == Issued(Sizes(scale, |Label|), seeded, counts, Pairs)
      ensures projectionLabels == Names(projections)
      ensures totalConnections == old(totalConnections) + Total(counts, Pairs)
    {
      SetPopulations();
      ConnectAll(counts, Sizes(scale, |Label|));
    }

    /** Issues the projections of all pairs into an empty list, targets in
      * label order, adding every pair's count to the running total. */
    method ConnectAll(counts: seq<seq<nat>>, sizes: seq<nat>)
      requires Supplies(seeded, sizes, counts) && SizesKnown(populations, sizes)
      modifies this`projections, this`projectionLabels, this`totalConnections
      ensures Progress(counts, sizes, Pairs, old(totalConnections))
    {
      projections := [];
      projectionLabels := [];
      ghost var base := old(totalConnections);
      var targetIndex := 0;
      ghost var first := 0;
      // `Label` has eight entries
      while targetIndex < 8
        invariant 0 <= targetIndex <= 8 && first == 8 * targetIndex
        invariant Progress(counts, sizes, first, base)
      {
        ConnectTarget(counts, sizes, targetIndex, first, base);
        targetIndex := targetIndex + 1;
        first := first + 8;
      }
    }

    /** The loss table: for each issued projection, its label mapped to its
      * loss, computed from its original and mapped weights. A label issued
      * twice keeps the entry of its last projection. */
    method GetLoss(weights: seq<(seq<Weight>, seq<Weight>)>) returns (perPopulation: map<string, Loss>)
      requires |weights| == |projections| == |projectionLabels|
      ensures perPopulation.Keys == set i | 0 <= i < |projectionLabels| :: projectionLabels[i]
      ensures forall i :: 0 <= i < |projectionLabels| && LastWithLabel(projectionLabels, i) ==>
        perPopulation[projectionLabels[i]] == SynapseLoss(weights[i].0, weights[i].1)
    {
      ghost var losses := seq(|weights|, i requires 0 <= i < |weights| => SynapseLoss(weights[i].0, weights[i].1));
      perPopulation := map[];
      var i := 0;
      while i < |projections|
        invariant 0 <= i <= |projections|
        invariant TableOf(perPopulation, projectionLabels, losses, i)
      {
        var loss := SynapseLoss(weights[i].0, weights[i].1);
        TableStep(perPopulation, projectionLabels, losses, i, loss);
        perPopulation := perPopulation[projectionLabels[i] := loss];
        i := i + 1;
      }
      TableDone(perPopulation, projectionLabels, losses);
    }
  }
}
