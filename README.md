# Mapping benchmarks: a verified model of their network bookkeeping

The benchmark scripts describe spiking networks and hand them to an external
mapping toolchain (pyhmf/pymarocco), which places and routes them on wafer
hardware and reports the synapses it could not realize. The toolchain itself is
external. What the scripts compute themselves is the subject of this model:

- the index arithmetic of the Ising lattice;
- the receptive-field wiring of the local RBM;
- the command lines of the parameter sweep;
- the bookkeeping of the cortical column benchmark.

The bookkeeping covers population sizes, which projections are issued and in
what order, the connection total, the synapse loss and the parsing of boolean
flags.

One Dafny module models each source file:

| module | file | source |
|---|---|---|
| `Ising` | `ising.dfy` | `mapping/networks/ising/run.py` |
| `ReceptiveFields` | `rbm_local_receptive.dfy` | `mapping/networks/rbmLocalReceptive/run.py` |
| `Sweep` | `sweep.dfy` | `parse.py` |
| `ColumnParams` | `column_params.dfy` | `mapping/networks/cortical/params.py` |
| `Cortical` | `cortical.dfy` | `mapping/networks/cortical/run.py` |

Loops that append to lists are methods with loop invariants. Each is proved
equal to a recursive specification function that follows the loop nesting, and
the lemmas state the properties of those functions. The two network objects
that update their fields are classes:

- `IsingNetwork`;
- `CorticalNetwork` (`totalConnections`, `populations`, `projections`,
  `projectionLabels`).

Projections and populations handed to the toolchain are plain records.

Notes on how the model reads the code:

- **Ising lattice.** Python's `%` with a positive modulus is Dafny's `%`.
  `int(nid / L**(d+1))` is integer division, which is what it computes for the
  sizes the benchmark uses.
- **RBM label loops.** The hidden-to-label loops connect `hiddenPop[outer][outer]`
  once per iteration of the inner loop. Only the diagonal hidden units reach
  the label population, each one `H` times in each direction and synapse type.
  The comment above the loops speaks of full connectivity. The model keeps what
  the code does (`OffDiagonalUnwired`, `LabelLinksMultiplicity`).
- **Cortical draws.** The generator is reseeded before every pair, so a pair's
  draws depend only on the source size, the target size and the number of
  connections. The model takes them as a table with that key (`Cortical.Rng`),
  so two pairs with the same key get the same draws. The table must hold, for
  every pair with connections, that many indices in range for both
  populations (`Supplies`).
- **Cortical counts.** Per-pair connection counts are an 8x8 input table,
  indexed [target][source].
- **Cortical populations.** Populations are created in the order of the
  `num_neurons` dictionary (L23, L4, L5, L6, each E then I). A population's
  size is `int(n * scale)`, that is, `Floor(n * scale)` for a non-negative
  `scale` taken as an exact real.

## Model

| member | source | states |
|---|---|---|
| Ising.Pow | mapping/networks/ising/run.py:101-105 | `L ** e` is at least 1 for `L >= 1`, and 0 for `L == 0` and `e >= 1` |
| Ising.Digit | mapping/networks/ising/run.py:102-105 | the coordinate of a site along a dimension (its base-L digit) lies in `[0, L)` |
| Ising.Step | mapping/networks/ising/run.py:105 | a coordinate moved by `+1` or `-1` modulo L stays in `[0, L)` |
| Ising.Wrap | mapping/networks/ising/run.py:102-103 | specification: the source formula `(nid + o) % M + int(nid / M) * M` with offset `o = ±P`; `WrapShape`, `WrapBlocks` and `WrapInverse` state what it does to the digits |
| Ising.Neighbour | mapping/networks/ising/run.py:102-105 | specification: the `connlist` entry of site `nid` for dimension `d` and offset `+L^d` or `-L^d` (`Wrap` with `P = L^d`, `M = L^(d+1)`); `NeighbourDigits`, `NeighbourInverse` and `NeighbourInRange` state its properties |
| Ising.WrapShape | mapping/networks/ising/run.py:102-103 | on a site written as high block, digit and low block, the neighbour formula keeps both blocks and steps the digit |
| Ising.WrapBlocks | mapping/networks/ising/run.py:102-103 | the formula keeps the quotient by `L*P` and the remainder by `P`, and steps the digit of weight `P` modulo L |
| Ising.NeighbourBlocks | mapping/networks/ising/run.py:102-105 | the neighbour along `d` has digit `d` stepped, the same quotient by `L^(d+1)` and the same remainder by `L^d` |
| Ising.NeighbourDigits | mapping/networks/ising/run.py:102-105 | the neighbour along `d` differs from the site in base-L digit `d` only, which moves by ±1 modulo L |
| Ising.StepInverse | mapping/networks/ising/run.py:105 | stepping a coordinate up then down (or down then up) gives it back |
| Ising.WrapInverse | mapping/networks/ising/run.py:102-105 | the `-P` formula undoes the `+P` formula and vice versa, for every number |
| Ising.NeighbourInverse | mapping/networks/ising/run.py:102-105 | the `-L^d` neighbour of the `+L^d` neighbour is the site itself, and conversely |
| Ising.NeighbourInRange | mapping/networks/ising/run.py:101-105 | every neighbour of a site in `[0, L^dim)` along a dimension `d < dim` lies in `[0, L^dim)` |
| Ising.WrapTwo | mapping/networks/ising/run.py:102-105 | with `L == 2` the `+P` and `-P` formulas agree |
| Ising.TwoSitesCoincide | mapping/networks/ising/run.py:102-108 | with `linearsize == 2` both neighbours along a dimension are one site, emitted twice |
| Ising.ConnList | mapping/networks/ising/run.py:102-106 | `connlist` has `2*dimension` entries: the `+L^d` neighbour at `2d`, the `-L^d` one at `2d+1` |
| Ising.SiteWeights | mapping/networks/ising/run.py:107-108 | specification: the entries `(nid, connid, 1.)` one site appends, one per `connlist` entry, in `connlist` order |
| Ising.Lattice | mapping/networks/ising/run.py:101-108 | specification: the whole weight list for sites `0..n-1`, site by site; `LatticeLength` to `LatticeSymmetric` below state its properties |
| Ising.LatticeLength | mapping/networks/ising/run.py:101-108 | sites `0..n-1` emit exactly `2*dimension*n` entries |
| Ising.LatticeAt | mapping/networks/ising/run.py:101-108 | entry `2*dimension*nid + j` is `(nid, connlist(nid)[j], 1.)`: sites ascending, `connlist` order within a site |
| Ising.LatticeMember | mapping/networks/ising/run.py:101-108 | every entry is `(nid, neighbour of nid along some d < dimension, 1.)` with `nid < n` |
| Ising.LatticeHasEntry | mapping/networks/ising/run.py:101-108 | every `(nid, connlist(nid)[j], 1.)` with `nid < n` is emitted |
| Ising.LatticeInRange | mapping/networks/ising/run.py:101-108 | every emitted entry joins two sites in `[0, L^dimension)` with weight 1 |
| Ising.LatticeSymmetric | mapping/networks/ising/run.py:101-108 | whenever `(a, b, 1.)` is emitted, `(b, a, 1.)` is emitted too |
| Ising.CreateNnUnitWeights | mapping/networks/ising/run.py:98-110 | the loop's weight list equals the lattice specification for all `L^dimension` sites |
| Ising.LatticeProjections | mapping/networks/ising/run.py:85-92 | one all-to-all excitatory projection per weight entry |
| Ising.BackgroundProjections | mapping/networks/ising/run.py:50-83 | specification: the four fixed projections issued before the lattice, in order: noise to noise (30 sources, weight 0.3, no self-connections, inhibitory), noise to the sites excitatory and inhibitory (`ksources`, 0.3, generator seeds 42 and 43), bias to the sites (`kbiasneurons`, 0.4, inhibitory, seed 44) |
| Ising.IsingNetwork.constructor | mapping/networks/ising/run.py:16-37 | stores the lattice, bias and noise parameters; nothing is built yet |
| Ising.IsingNetwork.Build | mapping/networks/ising/run.py:41-92 | `L^dimension` single-neuron site populations, the noise and bias populations, the four background projections, then one projection per lattice entry in order |
| ReceptiveFields.HiddenCount | mapping/networks/rbmLocalReceptive/run.py:44-46 | the hidden grid is `N-K+1` wide when `K <= N`; when not empty, its width plus `K-1` is `N` |
| ReceptiveFields.Quad | mapping/networks/rbmLocalReceptive/run.py:65-80 | specification: the four projections of one (visible, hidden) step: visible to hidden excitatory and inhibitory, then hidden to visible excitatory and inhibitory |
| ReceptiveFields.FieldRow | mapping/networks/rbmLocalReceptive/run.py:62-80 | specification: the `innerJ` loop, `Quad` of visible `(oi+ii, oj+innerJ)` and hidden `(oi, oj)` for `innerJ` in `0..m-1` |
| ReceptiveFields.Field | mapping/networks/rbmLocalReceptive/run.py:61-80 | specification: the `innerI` loop, rows `0..m-1` of the window of hidden unit `(oi, oj)` |
| ReceptiveFields.FieldsRow | mapping/networks/rbmLocalReceptive/run.py:60-80 | specification: the `outerJ` loop, the windows of hidden units `(oi, 0..m-1)` |
| ReceptiveFields.Fields | mapping/networks/rbmLocalReceptive/run.py:59-80 | specification: the `outerI` loop, the windows of hidden rows `0..m-1`; `FieldsLength`, `FieldsMember` and `Wired` state its properties |
| ReceptiveFields.LabelQuad | mapping/networks/rbmLocalReceptive/run.py:87-102 | specification: one step of the label loop: hidden to label inhibitory then excitatory, then label to hidden inhibitory then excitatory |
| ReceptiveFields.LabelRow | mapping/networks/rbmLocalReceptive/run.py:86-102 | specification: the `inner` loop, `m` copies of `LabelQuad` for the diagonal unit `(outer, outer)` |
| ReceptiveFields.LabelLinks | mapping/networks/rbmLocalReceptive/run.py:85-102 | specification: the `outer` loop, `LabelRow` of length `H` for `outer` in `0..m-1`; `LabelLinksMember` and `LabelLinksMultiplicity` state its properties |
| ReceptiveFields.BuildGrid | mapping/networks/rbmLocalReceptive/run.py:36-50 | the population loops build an `n x n` grid whose entry (i, j) is single-neuron unit (i, j) |
| ReceptiveFields.AppendFieldLine | mapping/networks/rbmLocalReceptive/run.py:62-80 | the innermost loop appends the four projections per visible unit of one window row |
| ReceptiveFields.AppendField | mapping/networks/rbmLocalReceptive/run.py:61-80 | the two inner loops append the whole K x K window of one hidden unit |
| ReceptiveFields.AppendFieldsRow | mapping/networks/rbmLocalReceptive/run.py:60-80 | the `outerJ` loop appends the windows of one hidden row |
| ReceptiveFields.AppendLabelRow | mapping/networks/rbmLocalReceptive/run.py:86-102 | the inner label loop appends the four projections between unit (outer, outer) and the label population, once per iteration |
| ReceptiveFields.AppendLabelLinks | mapping/networks/rbmLocalReceptive/run.py:85-102 | the label loops append the label projections for every hidden row |
| ReceptiveFields.Build | mapping/networks/rbmLocalReceptive/run.py:25-102 | the label population, an N x N visible grid, an H x H hidden grid and the field projections followed by the label projections; every grid index the loops use is in range |
| ReceptiveFields.GuardedBuild | mapping/networks/rbmLocalReceptive/run.py:126-130 | rejected exactly when `N < K`; otherwise the projections `build` issues (the field links then the label links, as for `Build`), `4K²H² + 4H²` projections, every visible index below N |
| ReceptiveFields.FieldRowLength | mapping/networks/rbmLocalReceptive/run.py:62-80 | `m` visible units of a window row give `4m` projections |
| ReceptiveFields.FieldLength | mapping/networks/rbmLocalReceptive/run.py:61-80 | `m` window rows give `4Km` projections |
| ReceptiveFields.FieldsRowLength | mapping/networks/rbmLocalReceptive/run.py:60-80 | `m` hidden units of a row give `4K²m` projections |
| ReceptiveFields.FieldsLength | mapping/networks/rbmLocalReceptive/run.py:59-80 | `m` hidden rows give `4K²Hm` projections |
| ReceptiveFields.LabelRowLength | mapping/networks/rbmLocalReceptive/run.py:86-102 | `m` inner iterations give `4m` label projections |
| ReceptiveFields.LabelLinksLength | mapping/networks/rbmLocalReceptive/run.py:85-102 | `m` outer iterations give `4Hm` label projections |
| ReceptiveFields.BuildCount | mapping/networks/rbmLocalReceptive/run.py:59-102 | `build` issues `4K²H²` field projections and `4H²` label projections |
| ReceptiveFields.QuadMember | mapping/networks/rbmLocalReceptive/run.py:65-80 | the four projections of one step join the visible and the hidden unit, in both directions, and nothing else |
| ReceptiveFields.FieldRowMember | mapping/networks/rbmLocalReceptive/run.py:62-80 | a projection is issued by the innermost loop iff it joins the hidden unit and a visible unit of that window row |
| ReceptiveFields.FieldMember | mapping/networks/rbmLocalReceptive/run.py:61-80 | a projection is issued for a hidden unit's window iff it joins the unit and a visible unit of its window rows |
| ReceptiveFields.FieldsRowMember | mapping/networks/rbmLocalReceptive/run.py:60-80 | a projection is issued for a hidden row iff it joins a unit of that row with a visible unit of its window |
| ReceptiveFields.FieldsMember | mapping/networks/rbmLocalReceptive/run.py:59-80 | the field projections are exactly the links, in either direction, between a hidden unit and a visible unit of its K x K window |
| ReceptiveFields.Wired | mapping/networks/rbmLocalReceptive/run.py:59-80 | hidden unit (oi, oj) and visible unit (i, j) are linked, both ways and with either synapse type, iff (i, j) is in the window starting at (oi, oj) |
| ReceptiveFields.FieldsInGrid | mapping/networks/rbmLocalReceptive/run.py:59-80 | every field projection joins a visible and a hidden unit with indices below N and below H respectively |
| ReceptiveFields.LabelQuadMember | mapping/networks/rbmLocalReceptive/run.py:87-102 | the four label projections of one step join the hidden unit and the label population, both ways, and nothing else |
| ReceptiveFields.LabelRowMember | mapping/networks/rbmLocalReceptive/run.py:86-102 | the inner label loop links only unit (outer, outer) with the label population, and does so iff it runs at all |
| ReceptiveFields.LabelLinksMember | mapping/networks/rbmLocalReceptive/run.py:85-102 | the label projections are exactly the links between the label population and a diagonal hidden unit (d, d), d < H |
| ReceptiveFields.OffDiagonalUnwired | mapping/networks/rbmLocalReceptive/run.py:85-102 | a hidden unit off the diagonal is never linked to the label population |
| ReceptiveFields.LabelQuadMultiplicity | mapping/networks/rbmLocalReceptive/run.py:87-102 | one step issues each projection between a diagonal unit and the label, in either direction, once for its own unit and never for another |
| ReceptiveFields.LabelRowMultiplicity | mapping/networks/rbmLocalReceptive/run.py:86-102 | the inner loop issues the projection from (d, d) to the label and the one back `m` times each when `d == outer`, otherwise never |
| ReceptiveFields.LabelLinksMultiplicity | mapping/networks/rbmLocalReceptive/run.py:85-102 | each diagonal unit (d, d), d < H, is linked to the label population exactly H times per direction and synapse type |
| Sweep.Split | parse.py:27 | `split(" ")` always yields at least one piece |
| Sweep.Join | parse.py:27 | specification: `" ".join(parts)`, the inverse of `split(" ")` (`JoinSplit`, `SplitJoin`) |
| Sweep.JoinTail | parse.py:19-21 | specification: every piece followed by one space, what the `argstr +=` loop accumulates |
| Sweep.SplitNoSpace | parse.py:27 | no piece of `split(" ")` contains a space |
| Sweep.SplitCount | parse.py:27 | there is one piece more than there are spaces |
| Sweep.JoinSplit | parse.py:27 | joining the pieces with single spaces gives the command back |
| Sweep.SplitJoin | parse.py:27 | splitting a join of space-free pieces gives the pieces back |
| Sweep.SplitPiece | parse.py:27 | a string without spaces splits into itself |
| Sweep.SplitBefore | parse.py:27 | a space-free piece, a space and a rest split into the piece then the rest's pieces |
| Sweep.SplitAppend | parse.py:27 | splitting at a space between two strings splits each of them |
| Sweep.JoinAppend | parse.py:21-22 | joining two lists is joining each and putting a space between |
| Sweep.JoinTailAppend | parse.py:20-21 | the `argstr` accumulation distributes over concatenation |
| Sweep.JoinTailLast | parse.py:21-22 | pieces each followed by a space, then a last piece, is their join |
| Sweep.Tokens | parse.py:20-21 | the zipped name/value pairs give `2n` tokens |
| Sweep.Command | parse.py:19-22 | specification: the command string `basecommand + " " + "<name> <value> "` over the zipped pairs, then `"--name <name>"`; `CommandJoin` and `CommandTokens` state its properties |
| Sweep.Argv | parse.py:24-34 | specification: `["python"]`, behind `["srun", "-p", "jenkins"]` when `useslurm` is set, followed by the command split at single spaces |
| Sweep.TaskArgv | parse.py:18-34 | specification: the argument vector `run` issues for one task tuple `(argtuple, argnames, basecommand, name, useslurm)` |
| Sweep.ZipLength | parse.py:20 | `zip` pairs as many entries as the shorter sequence has |
| Sweep.Run | parse.py:18-34 | the `argstr` loop builds the command, and the argument vector is `python` (behind `srun -p jenkins` with slurm) followed by the command split at spaces |
| Sweep.CommandJoin | parse.py:19-22 | the command is the base command and the tokens, then `--name` and the model name, joined by single spaces |
| Sweep.CommandTokens | parse.py:19-34 | with space-free names and values, the subprocess sees the base command's words, each zipped name and value as one word, in order, then `--name` and the model name |
| Sweep.TokensAt | parse.py:20-21 | token `2i` is name `i` and token `2i+1` is value `i` |
| Sweep.TokensNoSpace | parse.py:20-21 | tokens of space-free names and values contain no space |
| Sweep.Cons | parse.py:74-76 | prefixing a value keeps the number of tuples |
| Sweep.Prefixed | parse.py:74-76 | specification: one block per value of the first list, in that list's order, each block that value followed by every tail |
| Sweep.Product | parse.py:74-76 | specification: `itertools.product(*lists)`; `ProductLength`, `ProductEmpty`, `ProductMember` and `ProductOrder` state its properties |
| Sweep.PrefixedLength | parse.py:74-76 | one block per first value gives `first x rest` tuples |
| Sweep.ProductLength | parse.py:74-76 | the product has as many tuples as the product of the list lengths |
| Sweep.ProductEmpty | parse.py:74-76 | the product is empty exactly when some argument has no values |
| Sweep.PrefixedMember | parse.py:74-76 | a tuple is in the blocks iff its head is a first value and its tail is a tuple of the rest |
| Sweep.ProductMember | parse.py:74-76 | a tuple is produced iff it picks one value of each argument, in argument order |
| Sweep.PrefixedAt | parse.py:74-76 | tuple `i*|rest| + j` of the blocks is first value `i` followed by rest tuple `j` |
| Sweep.ProductOrder | parse.py:74-76 | tuples come in blocks per value of the first argument, so the last argument varies fastest |
| Sweep.Names | parse.py:66-70 | one name per argument |
| Sweep.ValueLists | parse.py:66-70 | one value list per argument |
| Sweep.Columns | parse.py:66-70 | the dictionary loop lists the names and the value lists in dictionary order |
| Sweep.ColumnsAligned | parse.py:66-77 | every name is zipped with a value of its own list, and `zip` drops nothing |
| Sweep.Jobs | parse.py:68-77 | specification: one benchmark's argument vectors, one per tuple of the product of its value lists, in product order |
| Sweep.Plan | parse.py:62-77 | specification: the argument vectors of all benchmarks, benchmark by benchmark; `SweepAll` proves both modes yield it |
| Sweep.SweepAll | parse.py:60-80 | the pool mode collects the same tasks in the same order as the sequential mode runs them (parse.py:73-77), so the argument vectors of the two modes match one for one: benchmark by benchmark, product order within each; the order in which pool workers start them is not modelled |
| Sweep.RunEach | parse.py:76-77 | the sequential branch runs every tuple of one benchmark in product order |
| Sweep.PoolMap | parse.py:80 | `pool.map` applies `run` once to every collected task; the argument vectors, listed by task position, are those of the tasks (the results of `run` are discarded, and the order in which the workers start the calls is not modelled) |
| Sweep.TaskArgvs | parse.py:80 | one argument vector per task |
| Sweep.TaskArgvsAppend | parse.py:73-80 | the argument vectors of collected tasks are those of each batch, in order |
| Sweep.PlanLength | parse.py:62-77 | the sweep issues one job per tuple of each benchmark's product |
| ColumnParams.StructureIndex | mapping/networks/cortical/params.py:47-53 | `structure[L][K] == 2*layers[L] + pops[K]` for every layer and type, and it indexes `label` |
| ColumnParams.PopulationLabel | mapping/networks/cortical/params.py:32-53 | `label[structure[L][K]]` is `L` without its "L" followed by `K` in lower case |
| ColumnParams.Probability | mapping/networks/cortical/params.py:11-20 | every connection probability lies in `[0, 1)` |
| ColumnParams.ConnProbsShape | mapping/networks/cortical/params.py:11-32 | `conn_probs` is 8 x 8, one row and one column per label |
| ColumnParams.TablesCover | mapping/networks/cortical/params.py:4-53 | every layer and type of the scheme has an entry in `num_neurons`, `K_ext`, `DC` and `structure` |
| ColumnParams.TablesWithinScheme | mapping/networks/cortical/params.py:4-53 | none of those tables has a layer or type outside the scheme, so all share the same keys |
| ColumnParams.OrdersCover | mapping/networks/cortical/params.py:47-48 | the scheme's layers and types are L23, L4, L5, L6 and E, I; these are also the local `layers` and `keys` lists that `get_neuron_number` walks (mapping/networks/cortical/run.py:61-62) |
| ColumnParams.NeuronsAt | mapping/networks/cortical/params.py:4-8 | the population at label index `i` is the one `structure` puts there, and it has neurons |
| ColumnParams.NumNeuronsPositive | mapping/networks/cortical/params.py:4-8 | every `num_neurons` entry is positive |
| ColumnParams.LabelsDistinct | mapping/networks/cortical/params.py:32 | the eight labels are pairwise distinct |
| ColumnParams.LabelOrder | mapping/networks/cortical/params.py:32-53 | label order is layer-major, E before I |
| Cortical.Str2Bool | mapping/networks/cortical/run.py:189-197 | a bool passes through; text is True iff it is one of yes/true/t/y/1 and False iff one of no/false/f/n/0, in any letter case; any other text is an error |
| Cortical.LowerChar | mapping/networks/cortical/run.py:192-194 | specification: `lower()` on one character, ASCII letters only |
| Cortical.Lower | mapping/networks/cortical/run.py:192-194 | specification: `v.lower()`, character by character |
| Cortical.SameIgnoringCase | mapping/networks/cortical/run.py:192-194 | specification: two strings are the same word up to letter case; the reference that `LowerMatches` ties `lower()` membership to |
| Cortical.LowerMatches | mapping/networks/cortical/run.py:192-194 | `v.lower()` is among lower-case words iff `v` equals one of them up to case |
| Cortical.Str2BoolBoolText | mapping/networks/cortical/run.py:189-197 | Python's `True`/`False` text parses back to the same boolean |
| Cortical.CorticalNetwork.constructor | mapping/networks/cortical/run.py:27-43 | the connection total starts at 0; the scale and the generator reseeded with the seed are kept |
| Cortical.CorticalNetwork.GetNeuronNumber | mapping/networks/cortical/run.py:58-66 | 8 sizes in the order L23E, L23I, L4E, L4I, L5E, L5I, L6E, L6I, each the size of the population at that label index |
| Cortical.Scaled | mapping/networks/cortical/run.py:77-80 | a scaled size is `n * scale` rounded toward zero |
| Cortical.Sizes | mapping/networks/cortical/run.py:75-80 | entry `i` is the scaled size of the population at label index `i` |
| Cortical.LayerPopulations | mapping/networks/cortical/run.py:75-80 | layer `li` names its populations `label[2li]` (E) and `label[2li+1]` (I), with those populations' sizes |
| Cortical.LayerAdded | mapping/networks/cortical/run.py:77-80 | entering a layer's two populations extends the population map by exactly those two labels |
| Cortical.CorticalNetwork.SetPopulations | mapping/networks/cortical/run.py:70-80 | the population map holds exactly the eight labels, each with its scaled size |
| Cortical.PairProjectionSpec | mapping/networks/cortical/run.py:89-124 | pair `p`'s projection runs from `label[p%8]` to `label[p/8]`, is excitatory iff the source label ends in "e", is labelled `source-target` and has exactly the pair's count of edges, each in range of both populations, with weight 1 and delay 0 |
| Cortical.Count | mapping/networks/cortical/run.py:102 | specification: `n_connection` of pair `p`, taken from the input table at `[p / 8][p % 8]` (target-major flat index) |
| Cortical.DrawKey | mapping/networks/cortical/run.py:108-111 | specification: the generator is reseeded before every pair, so a pair's draws are determined by the source size, the target size and the count |
| Cortical.Supplies | mapping/networks/cortical/run.py:94-111 | specification: the input draws give, for every pair with connections, that many source indices below the source size and target indices below the target size |
| Cortical.PairEdges | mapping/networks/cortical/run.py:108-118 | specification: the connection list `[int(a), int(b), 1, 0]` built from the `n` drawn index pairs, in draw order |
| Cortical.PairProjection | mapping/networks/cortical/run.py:89-124 | specification: the projection issued for pair `p`; `PairProjectionSpec` states its fields |
| Cortical.Issued | mapping/networks/cortical/run.py:86-124 | specification: the projections issued for the first `k` pairs, in loop order, skipping pairs with no connections; `IssuedConnected` and `TotalIsEdgeTotal` state its properties |
| Cortical.Total | mapping/networks/cortical/run.py:102-103 | specification: the sum of the counts of the first `k` pairs, pairs without connections included |
| Cortical.Connected | mapping/networks/cortical/run.py:86-105 | every listed pair is among the first `k` and has a nonzero count |
| Cortical.ConnectedSorted | mapping/networks/cortical/run.py:86-105 | the pairs with connections are listed in increasing (target-major, source-minor) order |
| Cortical.ConnectedMembers | mapping/networks/cortical/run.py:86-105 | a pair is listed exactly when it is among the first `k` and its count is nonzero |
| Cortical.IssuedConnected | mapping/networks/cortical/run.py:86-124 | projection `i` is the one of the `i`-th pair with a nonzero count: one per such pair, none for the others, in loop order |
| Cortical.TotalIsEdgeTotal | mapping/networks/cortical/run.py:102-118 | the sum of all 64 counts equals the number of edges of the issued projections |
| Cortical.BeforeDashJoin | mapping/networks/cortical/run.py:124 | the source part of `source-target` is recoverable when it holds no '-' |
| Cortical.DashJoinInjective | mapping/networks/cortical/run.py:124 | two labels `a-b` and `c-d` agree only when their parts do |
| Cortical.LabelsWithoutDash | mapping/networks/cortical/params.py:32 | no population name contains '-' |
| Cortical.PairLabelsDistinct | mapping/networks/cortical/run.py:121-124 | different pairs get different projection labels |
| Cortical.IssuedLabelsDistinct | mapping/networks/cortical/run.py:121-124 | the issued projections have pairwise distinct labels |
| Cortical.TotalStep | mapping/networks/cortical/run.py:103 | each pair adds its count to the total |
| Cortical.IssuedStep | mapping/networks/cortical/run.py:104-124 | each pair issues its projection iff its count is not zero |
| Cortical.FlatIndex | mapping/networks/cortical/run.py:86-87 | pair `8t + s` has target `t` and source `s` |
| Cortical.Names | mapping/networks/cortical/run.py:121-124 | one label per projection |
| Cortical.NamesAppend | mapping/networks/cortical/run.py:121-124 | appending a projection appends its label |
| Cortical.NamesAt | mapping/networks/cortical/run.py:121-124 | label `i` is projection `i`'s label, so the two lists stay aligned |
| Cortical.CorticalNetwork.ConnectPair | mapping/networks/cortical/run.py:89-124 | one pair adds its count to the total and, when the count is not zero, appends its projection and label, both as the specification gives them |
| Cortical.CorticalNetwork.ConnectTarget | mapping/networks/cortical/run.py:87-124 | the source loop for one target goes through that target's eight pairs |
| Cortical.CorticalNetwork.ConnectAll | mapping/networks/cortical/run.py:83-124 | starting from empty lists, all 64 pairs issue their projections and labels, and the total grows by the sum of all counts |
| Cortical.CorticalNetwork.Build | mapping/networks/cortical/run.py:68-124 | the populations at their scaled sizes, the projections of all pairs with connections in target-major, source-minor order, their labels, and the total grown by the sum of all 64 counts, zeros included |
| Cortical.Synapses | mapping/networks/cortical/run.py:180-183 | the number of non-NaN entries is at most the number of entries |
| Cortical.SynapseLoss | mapping/networks/cortical/run.py:178-187 | the result is (original − realized synapses, original synapses); the loss is at most the total and equals it iff nothing was realized |
| Cortical.LossIsDropped | mapping/networks/cortical/run.py:178-187 | when the mapping adds no synapse, the loss is the number of dropped synapses and lies between 0 and the total |
| Cortical.TableStep | mapping/networks/cortical/run.py:158-162 | entering one projection's loss under its label extends the loss table by that projection |
| Cortical.LastWithLabel | mapping/networks/cortical/run.py:158-162 | specification: no later label repeats label `i`, so the dictionary assignment for projection `i` is not overwritten |
| Cortical.TableOf | mapping/networks/cortical/run.py:157-162 | specification: the loss dictionary after the first `k` projections: their labels as keys, each with the loss of the last projection carrying it |
| Cortical.CorticalNetwork.GetLoss | mapping/networks/cortical/run.py:156-164 | the loss table has one key per label; each label maps to the loss of the last projection carrying it |
| Cortical.IssuedLabelsLast | mapping/networks/cortical/run.py:121-162 | after a build no label repeats, so every projection has its own entry in the loss table |

## Left out

- **External toolchain.** pyhmf/pymarocco are not modelled: populations,
  connectors, `pynn.setup`, `pynn.run` and `pynn.end`, placement, routing and
  `marocco.stats`. Projections and populations are plain records, and the
  weights that `getWeights` returns are inputs.
- **Floating point.** The cortical in-degree formula (`get_indegrees`, using
  `np.log`) and `round(indegree * k_scale * targetSize)` are left out; the
  per-pair counts are an input table instead. `int(n * scale)` is taken on
  exact reals, so float rounding of that product is not modelled.
- **Random draws.** `np.random.seed` and `np.random.randint` are left out; the
  draws are an input table (`Cortical.Rng`).
- Cortical.CorticalNetwork.Build: requires the draws table to supply in-range
  indices for every pair with connections. The source raises an error from
  `randint` when a pair with connections has an empty population; that failure
  path is not modelled.
- **Spike-input branch.** The branch (`external_source == "spikeInput"`) is dead
  under the fixed parameter `"current"`, and its rates are floating point.
- **Host environment.** `argparse`, JSON and timing output, `print`, the logger,
  `subprocess.check_call`, `srun` and `multiprocessing.Pool` are left out. Only
  the argument vectors and their order are modelled, not process execution,
  failures or concurrency. With `--multiprocessing` the pool's workers start
  the tasks concurrently, so the order in which subprocesses actually start
  is not captured; the model lists each task's vector at its task position.
- Cortical.Scaled, Cortical.CorticalNetwork.SetPopulations and
  Cortical.CorticalNetwork.Build require `scale >= 0`. The script accepts any
  float `--scale`; a negative one gives negative population sizes, which the
  external toolchain rejects. That case is not modelled.
- Cortical.Str2Bool: lower-cases ASCII letters only; Python's `lower()` also
  folds other Unicode letters.
- Ising.CreateNnUnitWeights: `int(nid / L**(d+1))` is integer division. Python
  computes it through a float, which agrees only while the site numbers are
  exactly representable.
- ReceptiveFields: a negative `N`, `K` or `L` is not modelled (all three
  are `nat`), so the model says nothing about what the script does with them.
- Ising: a negative `linearsize` or `dimension` is not modelled (both are
  `nat`). `duplicates` is stored but unused by `build`, and `sourcerate` is
  accepted and dropped, as in the constructor.
- **Other scripts.** The plotting scripts and the other network scripts (rbm,
  feedforward, fullyVisibleBM, pfeilsNoise, random) only pass parameters to
  library connectors or draw plots; they are not part of this model.
- Cortical.SynapseLoss: the weight matrices are flattened row by row into one
  sequence, NaN being `Absent`; the loss percentage that is only printed is
  left out.
