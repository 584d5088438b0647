# Population simulation of a barcode-recording lineage tracer

This project models the population engine of the barcode simulator in
`src/populate.py`. Each cell of a well carries a *recording*, a list of
integer barcodes drawn from the space of barcodes `[1, n)`. One generation
step (`simulate_population`) does four things to every well:

- it *transfects* the well: each cell gains a fresh recording from
  `generate_recording`;
- it *incubates* the well: two divisions make four replicas of every cell,
  shuffled;
- it *samples* the well: half of the replicas are kept;
- it *splits* the well into two consecutive clones.

The model is written in Dafny and has three modules:

- `Randomness` (`randomness.dfy`). numpy's global generator becomes a
  `Script` of draws: uniforms, barcodes and partner indices for the
  shuffle. A mutable `Rng` class reads them. `Shuffle` is Fisher–Yates in
  place, and its only promise is that the multiset of elements is kept.
- `Recording` (`recording.dfy`). `choose_barcode` and `generate_recording`.
  - `Generated` and `Extended` specify the recording produced for a given
    script, as functions.
  - `GenerateRecording` is the original's redrawing `while` loop, proved to
    compute them.
  - The lemmas state the entry rule, the range and the alternation about
    every recording the generator can return.
- `Populate` (`populate.dfy`). `transfect`, `incubate`, `sample`, `split`
  and `simulate_population`.

In `Populate`, cells are objects of `class Cell`, whose `recording` is
extended in place. Populations are arrays of references to cells.

As in the original, `population * 2 ** d` copies references, so the replicas
of a cell are the same cell. Transfection is therefore specified through
the sequence of *visits*: the population, round after round, in index
order. A cell gains the recordings of all the visits to it, in visiting
order (`Gained`). With no aliasing, `GainedDistinct` reduces this to the
usual one recording per cell.

The original relies on floating point in four places, and the model
replaces each:

- The comparison `first_barcode > n/2` is the integer comparison `2 * b > n`.
- Uniform draws are exact `real`s. They are compared with `p` exactly as the
  code compares them: `P > p` at entry and `P < p` in the loop.
- `floor(n * (1 - loss))` is evaluated in exact arithmetic. It is exact for
  the loss 0.5 used by a generation step.
- `floor(N / k)` in `split` is a true division of integers. `FloorDiv`
  computes the floor of the exact quotient in integers. For the k = 2 of
  every call and any list shorter than 2^53 elements, the float quotient is
  exact, so the two agree.

Two behaviours of the code that the model keeps:

- Splitting an empty population raises. Its stride `floor(0 / k)` is 0, and
  `range(0, 0, 0)` raises `ValueError`. `Split` returns `Err(ZeroStep)`, as
  it does whenever N < k.
- In `SimulatePopulation`, an empty well makes the whole step fail, and it
  does so only after every well has already been replaced in place.

## Model

| member | source | states |
|---|---|---|
| Recording.ChooseBarcode | src/populate.py:9-15 | For n >= 2 and a script of barcodes in [1, n), the barcode drawn lies in [1, n). The remaining script stays valid and no uniform draw is consumed. |
| Recording.GeneratedEntry | src/populate.py:23-29 | With P and b the first uniform and barcode drawn, the recording is empty exactly when P > p or 2b > n. A non-empty recording starts with b, and 2b <= n. |
| Recording.GeneratedInRange | src/populate.py:17-42 | Every barcode of every recording lies in [1, n). |
| Recording.GeneratedAlternates | src/populate.py:32-40 | No two neighbouring barcodes of a recording are both above 7 or both below 7. |
| Recording.Extended | src/populate.py:32-40 | The redrawing loop as a function of the script: the recording it returns and the draws it leaves. The script left stays valid. |
| Recording.Generated | src/populate.py:17-42 | `generate_recording` as a function of the script: the recording and the draws left. The script left stays valid. |
| Recording.ExtendedKeepsPrefix | src/populate.py:32-40 | The redrawing loop only appends: the recording it starts from is a prefix of the one it returns. |
| Recording.ExtendedInRange | src/populate.py:32-40 | The loop appends only barcodes of [1, n). |
| Recording.ExtendedAlternates | src/populate.py:32-40 | A candidate on the same side of 7 as the last barcode is never appended, so alternation is preserved. |
| Recording.ExtendedSameDraws | src/populate.py:32-40 | The redrawing loop reads no shuffle draws. Two scripts that agree in uniforms and barcodes give the same recording and leave scripts that still agree. |
| Recording.GeneratedSameDraws | src/populate.py:17-42 | `generate_recording` reads no shuffle draws: the same recording on two scripts that agree in uniforms and barcodes, and the scripts left still agree. |
| Recording.GenerateRecording | src/populate.py:17-42 | The loop returns exactly the recording `Generated` specifies, consuming the same draws. That recording is in range, alternates, and starts at or below n/2. |
| Randomness.Rng.Barcode | src/populate.py:13 | One barcode draw: the head of the barcode script, which is then consumed. |
| Randomness.Rng.Uniform | src/populate.py:23 | One uniform draw: the head of the uniform script, which is then consumed. |
| Randomness.Rng.Swap | src/populate.py:65 | One partner draw of `np.random.shuffle` at step i: the head of the swap script modulo i + 1, which is then consumed; a spent script gives i itself, no exchange. The same draw serves the shuffle of `sample` at line 88. |
| Randomness.Shuffle | src/populate.py:65 | Shuffling in place keeps the multiset of the list and not its order. It draws no uniforms and no barcodes. |
| Populate.Cell.Extend | src/populate.py:54 | `extend` appends the new recording to the cell's recording. |
| Populate.Rounds | src/populate.py:50-55 | The number of times `while round > 0` runs when started at r: r for r > 0, and 0 otherwise. |
| Populate.Repeat | src/populate.py:64 | `s * k` on a list: k copies of s, one after the other. |
| Populate.Pow2 | src/populate.py:64 | `2 ** d` for d >= 0. |
| Populate.RepeatLength | src/populate.py:64 | k copies of a list of length N have length N * k. |
| Populate.RepeatAt | src/populate.py:64 | Position q * N + i of the copies holds element i of the list: copy q keeps the original order. |
| Populate.RepeatMultiset | src/populate.py:64 | Every element occurs k times as often in k copies as in the list. |
| Populate.Recordings | src/populate.py:51-54 | The recordings drawn at successive visits: one per visit, the script left valid. |
| Populate.RecordingsSameDraws | src/populate.py:51-54 | A transfection reads no swap draws. Because the model keeps swap draws in a separate script (see "## Left out"), the shuffles of earlier wells do not change the recordings it draws. |
| Populate.RecordingsInRange | src/populate.py:51-54 | Every recording drawn during a transfection lies in [1, n). |
| Populate.Gained | src/populate.py:52-54 | What one cell gains from a sequence of visits and their recordings: the recordings of the visits to that cell, in visiting order, aliases included. |
| Populate.GainedSnoc | src/populate.py:54 | One more visit extends exactly the visited cell by the new recording. Every other cell is unchanged. |
| Populate.GainedUnvisited | src/populate.py:52-54 | A cell that is never visited gains nothing. |
| Populate.GainedDistinct | src/populate.py:52-54 | When no cell is visited twice, the cell of visit i gains exactly the recording drawn at visit i. |
| Populate.GainedInRange | src/populate.py:52-54 | When every recording lies in [1, n), so does what any cell gains. |
| Populate.GainedRecordingsInRange | src/populate.py:49-57 | Whatever the aliasing, what a cell gains from a transfection consists of barcodes of [1, n) only. |
| Populate.Transfect | src/populate.py:45-57 | Returns the same list, and consumes exactly the draws of the visits. Details follow this table. |
| Populate.TransfectRound | src/populate.py:52-54 | One round visits population[0..N) in index order and adds those N visits to the ones before. |
| Populate.TransfectCell | src/populate.py:53-54 | One visit draws one recording and extends the visited cell, and every alias of it, by it. |
| Populate.AliasedGain | src/populate.py:52-54 | Visiting one cell twice, with the draws [0.1, 0.5, 0.1, 0.5] and barcodes [3, 4], gives the cell both recordings: [3, 4]. |
| Populate.AliasedTransfection | src/populate.py:45-57 | `transfect(10, 0.2, 1, [c, c])` with those draws, on an empty cell c that both entries refer to, leaves c with the recording [3, 4]. |
| Populate.ExtendAt | src/populate.py:54 | Extending entry i changes the recording of every index that refers to the same cell, and of no other. |
| Populate.Incubate | src/populate.py:60-67 | Returns a new list of length N * 2^d whose multiset is that of 2^d copies of the population. |
| Populate.Kept | src/populate.py:90 | `floor(n * (1 - loss))`, evaluated over exact reals. |
| Populate.SliceEnd | src/populate.py:91 | The Python slice `[:stop]` ends within the list, and at `stop` itself when 0 <= stop <= len. |
| Populate.SampleSize | src/populate.py:89-91 | For a loss in [0, 1], exactly floor(n(1 - loss)) cells are kept, between 0 and n. Loss 0 keeps all of them and loss 1 keeps none. |
| Populate.KeptHalf | src/populate.py:90 | With the loss of 0.5 used by a generation step, n div 2 cells are kept. |
| Populate.Sample | src/populate.py:84-93 | The input is left permuted (same multiset). The result is a new list holding the first floor(n(1 - loss)) cells of that permutation, hence a sub-multiset of the input. |
| Populate.FloorDiv | src/populate.py:77 | `floor(N / k)` for k != 0: the q with q * k <= N < (q + 1) * k for k > 0, and the mirrored bounds for k < 0. |
| Populate.Chunks | src/populate.py:77-79 | The slices `s[i:i+seed]` for i in range(0, len(s), seed), in order, the last one cut at the end of s. |
| Populate.ChunksFlatten | src/populate.py:78-79 | The chunks, concatenated, are the population exactly. |
| Populate.ChunksSizes | src/populate.py:78-79 | Every chunk but the last has length seed. The last has length between 1 and seed. |
| Populate.ChunksCount | src/populate.py:77-79 | There are ceil(N / seed) chunks, and none exactly when N = 0. |
| Populate.AtLeastPartsChunks | src/populate.py:77-79 | With stride floor(N / k) >= 1 there are at least k chunks. |
| Populate.FiveIntoTwo | src/populate.py:77-79 | Five cells split in two give three chunks, of sizes 2, 2 and 1, so more than k. |
| Populate.SplitHalves | src/populate.py:77-79 | A population of 2m >= 2 cells split in two gives stride m and exactly its two halves. |
| Populate.Split | src/populate.py:70-81 | Error and success cases of `split`; they follow this table. |
| Populate.TransfectOnce | src/populate.py:101 | `transfect(n, 0.2, 1, well)` returns the well itself and consumes exactly the draws of one visit per entry. Every entry's recording becomes its old one followed by the recordings of its visits. |
| Populate.Replicate | src/populate.py:102-103 | `sample(incubate(well, 2), 0.5)` is a new well of 2N cells drawn from four replicas of each cell, so each cell occurs at most four times as often as in the well. |
| Populate.Generation | src/populate.py:101-103 | The three steps on one well: a new well of 2N cells drawn from the replicas. Every entry's recording becomes its old one followed by the recordings of its visits. The uniforms and barcodes left are those the transfection leaves, and the script stays valid. |
| Populate.GenerationAt | src/populate.py:100-103 | Replaces F[i] with the new well computed from its old contents; no other F[j] changes. Each cell of the generation gains what the visits of well i give it, which is nothing for a cell outside the well. |
| Populate.WellRecordings | src/populate.py:100-101 | The recordings of the first loop: one list per well, each drawn by one `transfect` of that well from the draws the previous wells left. The script left is valid. |
| Populate.NextWell | src/populate.py:101 | One more well's transfection appends one list of recordings and keeps those of the wells before. |
| Populate.GainedAll | src/populate.py:100-101 | What one cell gains from the transfections of all wells, well after well: its gains from each well it occurs in, in well order. |
| Populate.GainedAllSnoc | src/populate.py:100-101 | A cell's gains from the first i + 1 wells are its gains from the first i wells followed by its gains from well i. |
| Populate.WellRecordingsInRange | src/populate.py:100-101 | Every recording drawn for every well lies in [1, n). |
| Populate.GainedAllInRange | src/populate.py:100-101 | When every recording lies in [1, n), so does what any cell gains from all wells. |
| Populate.WellGainsInRange | src/populate.py:100-101 | What a cell gains from the transfections of all wells consists of barcodes of [1, n). |
| Populate.GainsNext | src/populate.py:100-101 | When each cell gains well i's share after the first i wells' shares, it holds the first i + 1 wells' shares. |
| Populate.GainsGrown | src/populate.py:100-101 | After all wells, every recording has grown, keeping the old one as a prefix, by barcodes of [1, n). |
| Populate.PlanFollowed | src/populate.py:100-101 | Recordings and draws accumulated well by well, from the first script, are what `WellRecordings` computes. |
| Populate.GenerationNext | src/populate.py:100-103 | One turn of the first loop replaces F[i] by a fresh well and no other F[j]. It carries the loop state from i to i + 1 turns: wells ..i are replaced, wells i.. keep their old contents, the draws follow the plan, and every cell holds its share of the first i + 1 wells. |
| Populate.TurnedEnd | src/populate.py:100-103 | After the last turn every well has twice its old size and replicas of its old cells, the draws left are those of `WellRecordings`, and every cell holds its first recording followed by its gains from all wells. |
| Populate.Generations | src/populate.py:100-103 | The first loop, on every well. Details follow this table. |
| Populate.Regroup | src/populate.py:105-109 | For wells of even size: it succeeds exactly when no well is empty, and otherwise fails with the stride-0 error. On success there are 2·len(F) clones, and clones 2i and 2i+1 are the halves of well i, in order. |
| Populate.SimulatePopulation | src/populate.py:96-110 | The whole step; it succeeds exactly when no input well is empty. Details follow this table. |

More detail for the rows that say so:

- `Populate.Transfect`
  - Returns the same list, the aliasing included.
  - The visits are the population r times over, in index order.
  - Every entry's recording becomes its old recording followed by the
    recordings of all visits to that cell, in visiting order. In
    particular, the old recording is a prefix of the new one.
  - Consumes exactly the draws of those visits.
  - For r <= 0, nothing changes.
- `Populate.Split`
  - k = 0 gives the division error.
  - A stride floor(N / k) of 0 gives the step-0 error. This covers the empty
    population and every N < k.
  - A negative stride gives no clones.
  - Otherwise the result is new lists holding exactly the slices
    population[i : i + seed], for i in range(0, N, seed), in order.
- `Populate.Generations`
  - Every well is replaced by a new array twice its length.
  - Each new well is drawn from four replicas of the cells of the old one.
  - The wells are transfected in index order, each from the draws the
    previous one left (`WellRecordings`). Every cell's recording becomes its
    old one followed by what it gained from all wells, in order
    (`GainedAll`). A cell that occurs in several wells gains from each.
  - Every cell of the generation therefore only grows, by barcodes of [1, n).
  - The uniforms and barcodes left are those of `WellRecordings`, and the
    script stays valid.
  - The new wells hold only cells of the old generation.
- `Populate.SimulatePopulation`
  - It holds the facts of `Generations` for F: the new wells, every cell's
    recording followed by its gains from all wells, and the draws left,
    which stay valid for a further step.
  - It succeeds exactly when no input well is empty. An empty well makes it
    fail with the stride-0 error.
  - On success the result has 2·len(F) clones. Each of them has the size of
    the old well. Clones 2i and 2i+1, one after the other, make up the new
    F[i].
  - Every cell of every clone is a cell of the input generation, so a
    caller that may modify those cells may run a further step on the clones.

## Left out

- `src/main.py` is not part of this model. It is argument parsing, YAML
  configuration, plotting and file output, plus calls to `encode` and
  `generate_lineage_matrix`, whose sources are not part of this model
  either. In particular, it rebinds `F = G` after each step, and the model
  stops at the result of one step. That step leaves a valid script, and its
  clones hold only cells of its input.
- The distributions of numpy's generator are not modelled. Uniform barcodes
  and uniformly random permutations cannot be verified. Every draw is a
  scripted input; the properties hold for every script.
- The draws come from three independent scripts: uniforms, barcodes and
  swaps. numpy draws all of them from one stream. The interleaving of draws
  of different kinds is therefore not modelled, but the order within each
  kind is.
- A spent script keeps answering with a fixed value: 1.0 for a uniform, 1
  for a barcode, and "no exchange" for a swap. This keeps every operation
  total, which stands in for the only-probabilistic termination of the
  redrawing loop.
- Randomness.Shuffle: the partner index at step i is the scripted value
  modulo i + 1. Only the preserved multiset is promised, not the
  uniformity of the permutation.
- Recording.GenerateRecording: requires p <= 1.0. A continuation
  probability outside [0, 1] is not a meaningful input, and every call
  passes 0.2. The termination measure of the loop counts the remaining
  uniform draws, and it needs p <= 1 so that a spent uniform script (1.0)
  stops the loop.
- Recording.ChooseBarcode: the error `randint(1, n)` raises for n <= 1 is a
  precondition (n >= 2), not an error result.
- Populate.Transfect: requires n >= 2 whenever it draws at all, that is,
  for a non-empty population and r > 0.
- Populate.Incubate: d is a nat. For d < 0 the original computes `2**d`
  as a float, and `population * 2**d` raises `TypeError`; that error is not
  modelled. Every call passes d = 2.
- Populate.Regroup: requires every well to have even size, which is the only
  kind the first loop of `simulate_population` leaves. Odd-sized wells are
  covered by `Split` alone.
- Populate.Sample: `floor(n * (1 - loss))` is evaluated over exact reals.
  The model does not capture the IEEE rounding of other loss values. The
  0.5 used by a generation step is exact.
- Populate.FloorDiv: the IEEE rounding of the float quotient `N / k` is not
  modelled. It can differ from the exact floor only for huge N or k; for
  k = 2 on any list shorter than 2^53 elements it is exact.
- Populate.SimulatePopulation: the new wells are specified by their size
  and by being drawn from the replicas of the old well. Which replicas
  survive depends on the shuffle, which promises nothing about order.
- Memory growth and the exponential size of populations are not modelled.
