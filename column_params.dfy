/** Population parameters of the cortical column model (after Potjans and
  * Diesmann 2014): sizes, connection probabilities, external in-degrees, the
  * population labels and the indexing scheme that ties them together. */
module ColumnParams {

  /** Neurons per layer and type (E excitatory, I inhibitory). */
  const NumNeurons: map<string, map<string, nat> > := map[
    "L23" := map["E" := 20683, "I" := 5834],
    "L4"  := map["E" := 21915, "I" := 5479],
    "L5"  := map["E" := 4850,  "I" := 1065],
    "L6"  := map["E" := 14395, "I" := 2948]]

  /** Probability of at least one connection, indexed [target][source] in label order. */
  const ConnProbs: seq<seq<real>> := [
    [0.1009, 0.1689, 0.0437, 0.0818, 0.0323, 0.0,    0.0076, 0.0   ],
    [0.1346, 0.1371, 0.0316, 0.0515, 0.0755, 0.0,    0.0042, 0.0   ],
    [0.0077, 0.0059, 0.0497, 0.135,  0.0067, 0.0003, 0.0453, 0.0   ],
    [0.0691, 0.0029, 0.0794, 0.1597, 0.0033, 0.0,    0.1057, 0.0   ],
    [0.1004, 0.0622, 0.0505, 0.0057, 0.0831, 0.3726, 0.0204, 0.0   ],
    [0.0548, 0.0269, 0.0257, 0.0022, 0.06,   0.3158, 0.0086, 0.0   ],
    [0.0156, 0.0066, 0.0211, 0.0166, 0.0572, 0.0197, 0.0396, 0.2252],
    [0.0364, 0.001,  0.0034, 0.0005, 0.0277, 0.008,  0.0658, 0.1443]]

  /** External in-degree per layer and type. */
  const KExt: map<string, map<string, nat> > := map[
    "L23" := map["E" := 1600, "I" := 1500],
    "L4"  := map["E" := 2100, "I" := 1900],
    "L5"  := map["E" := 2000, "I" := 1900],
    "L6"  := map["E" := 2900, "I" := 2100]]

  /** Population names, in the order of the rows and columns of `ConnProbs`. */
  const Label: seq<string> := ["23e", "23i", "4e", "4i", "5e", "5i", "6e", "6i"]

  /** External DC input per layer and type. */
  const DC: map<string, map<string, real> > := map[
    "L23" := map["E" := 0.0, "I" := 0.0],
    "L4"  := map["E" := 0.0, "I" := 0.0],
    "L5"  := map["E" := 0.0, "I" := 0.0],
    "L6"  := map["E" := 0.0, "I" := 0.0]]

  /** Background rate per synapse. */
  const BgRate: real := 8.0

  /** Kind of external source; the alternative is "spikeInput". */
  const ExternalSource: string := "current"

  const Layers: map<string, nat> := map["L23" := 0, "L4" := 1, "L5" := 2, "L6" := 3]
  const Pops: map<string, nat> := map["E" := 0, "I" := 1]

  const Structure: map<string, map<string, nat> > := map[
    "L23" := map["E" := 0, "I" := 1],
    "L4"  := map["E" := 2, "I" := 3],
    "L5"  := map["E" := 4, "I" := 5],
    "L6"  := map["E" := 6, "I" := 7]]

  /** The layers and the population types in the order the tables list them.
    * `get_neuron_number` in mapping/networks/cortical/run.py (lines 61-62)
    * walks the same two lists as its local `layers` and `keys`. */
  const LayerOrder: seq<string> := ["L23", "L4", "L5", "L6"]
  const PopOrder: seq<string> := ["E", "I"]

  /** Index of a population in label order: two per layer, E before I. The
    * `Structure` table agrees with this formula everywhere. */
  function StructureIndex(layer: string, pop: string): (i: nat)
    requires layer in Layers && pop in Pops
    ensures layer in Structure && pop in Structure[layer] && i == Structure[layer][pop]
    ensures i < |Label|
  {
    2 * Layers[layer] + Pops[pop]
  }

  /** A population's name: the layer without its leading "L", then the type in
    * lower case. It is the label at the population's structure index. */
  function PopulationLabel(layer: string, pop: string): (s: string)
    requires layer in Layers && pop in Pops
    ensures s == Label[StructureIndex(layer, pop)]
  {
    layer[1..] + (if pop == "E" then "e" else "i")
  }

  /** The connection probability from source to target. */
  function Probability(target: nat, source: nat): (p: real)
    requires target < |Label| && source < |Label|
    ensures 0.0 <= p < 1.0
  {
    ConnProbsShape();
    ConnProbs[target][source]
  }

  /** The probability table is square, one row and one column per label. */
  lemma ConnProbsShape()
    ensures |ConnProbs| == |Label| == 8
    ensures forall t :: 0 <= t < |ConnProbs| ==> |ConnProbs[t]| == |Label|
  {
  }

  /** Every (layer, type) pair of the indexing scheme has an entry in each
    * per-layer table. */
  lemma TablesCover(l: string, p: string)
    requires l in Layers && p in Pops
    ensures l in NumNeurons && p in NumNeurons[l]
    ensures l in KExt && p in KExt[l]
    ensures l in DC && p in DC[l]
    ensures l in Structure && p in Structure[l]
  {
  }

  /** A per-layer table holds no layer and no type outside the indexing scheme. */
  ghost predicate WithinScheme<V>(t: map<string, map<string, V> >)
  {
    forall l, p :: l in t && p in t[l] ==> l in Layers && p in Pops
  }

  /** None of the per-layer tables has a key outside the indexing scheme. */
  lemma TablesWithinScheme()
    ensures WithinScheme(NumNeurons) && WithinScheme(KExt)
    ensures WithinScheme(DC) && WithinScheme(Structure)
  {
    NumNeuronsWithinScheme();
    KExtWithinScheme();
    DCWithinScheme();
    StructureWithinScheme();
  }

  lemma NumNeuronsWithinScheme() ensures WithinScheme(NumNeurons) { }
  lemma KExtWithinScheme() ensures WithinScheme(KExt) { }
  lemma DCWithinScheme() ensures WithinScheme(DC) { }
  lemma StructureWithinScheme() ensures WithinScheme(Structure) { }

  /** The layers and types of the indexing scheme are those of `LayerOrder` and `PopOrder`. */
  lemma OrdersCover()
    ensures forall l :: l in Layers <==> l in LayerOrder
    ensures forall p :: p in Pops <==> p in PopOrder
  {
  }

  /** The size of the population at index `i` of label order. */
  function NeuronsAt(i: nat): (n: nat)
    requires i < |Label|
    ensures forall l, p {:trigger StructureIndex(l, p)} :: l in Layers && p in Pops && StructureIndex(l, p) == i ==>
      l in NumNeurons && p in NumNeurons[l] && n == NumNeurons[l][p]
    ensures n > 0
  {
    LabelOrder(i);
    TablesCover(LayerOrder[i / 2], PopOrder[i % 2]);
    NumNeurons[LayerOrder[i / 2]][PopOrder[i % 2]]
  }

  /** Every population has neurons. */
  lemma NumNeuronsPositive()
    ensures forall l, p :: l in NumNeurons && p in NumNeurons[l] ==> NumNeurons[l][p] > 0
  {
  }

  /** Labels are distinct, so each names one population. */
  lemma LabelsDistinct()
    ensures forall i, j :: 0 <= i < j < |Label| ==> Label[i] != Label[j]
  {
  }

  /** Label order is layer-major, E before I, following `LayerOrder` and `PopOrder`. */
  lemma LabelOrder(i: nat)
    requires i < |Label|
    ensures LayerOrder[i / 2] in Layers && PopOrder[i % 2] in Pops
    ensures StructureIndex(LayerOrder[i / 2], PopOrder[i % 2]) == i
  {
  }
}
