/**
 * The population-simulation engine of `src/populate.py`: transfection,
 * incubation, sampling and splitting of wells of cells, and one generation
 * step over a list of wells.
 *
 * A cell is an object whose recording is extended in place, and a
 * population is an array of references to cells.  As in the original, the
 * replicas made by incubation are the same cell, not copies of it: a cell
 * that occurs several times in a population gains one recording per
 * occurrence when that population is transfected.
 */
module Populate {
  import opened Randomness
  import opened Recording

  // The fixed policy of one generation step (`simulate_population`).
  const CONTINUATION: real := 0.2
  const ROUNDS: int := 1
  const DIVISIONS: nat := 2
  const LOSS: real := 0.5
  const PARTS: int := 2

  /** The Python exceptions `split` can raise. */
  datatype Error =
    | ZeroDivision  // `floor(N / k)` with k == 0
    | ZeroStep      // `range(0, N, 0)`: the stride floor(N / k) is 0

  datatype Result<T> = Ok(value: T) | Err(error: Error)

  /** A cell; its only state is its recording, a list of barcodes. */
  class Cell {
    var recording: seq<int>

    constructor ()
      ensures recording == []
    {
      recording := [];
    }

    /** `list.extend` on the cell's recording. */
    method Extend(more: seq<int>)
      modifies this
      ensures recording == old(recording) + more
    {
      recording := recording + more;
    }
  }

  /** A fresh Python list holding the elements of `s`. */
  method NewList<T>(s: seq<T>) returns (a: array<T>)
    ensures fresh(a) && a[..] == s
  {
    a := new T[|s|](i requires 0 <= i < |s| => s[i]);
  }

  /** `after` extends `before` by barcodes of the space [1, n) only. */
  predicate Grown(before: seq<int>, after: seq<int>, n: int)
  {
    before <= after && InRange(after[|before|..], n)
  }

  lemma GrownBy(a: seq<int>, g: seq<int>, n: int)
    requires InRange(g, n)
    ensures Grown(a, a + g, n)
  {
    assert (a + g)[|a|..] == g;
  }

  lemma GrownTransitive(a: seq<int>, b: seq<int>, c: seq<int>, n: int)
    requires Grown(a, b, n) && Grown(b, c, n)
    ensures Grown(a, c, n)
  {
    assert c[|a|..] == b[|a|..] + c[|b|..];
    forall i | 0 <= i < |c[|a|..]|
      ensures 1 <= c[|a|..][i] < n
    {
      if i < |b| - |a| {
        assert c[|a|..][i] == b[|a|..][i];
      } else {
        assert c[|a|..][i] == c[|b|..][i - (|b| - |a|)];
      }
    }
  }

  lemma InRangeConcat(a: seq<int>, b: seq<int>, n: int)
    requires InRange(a, n) && InRange(b, n)
    ensures InRange(a + b, n)
  {
    forall i | 0 <= i < |a + b|
      ensures 1 <= (a + b)[i] < n
    {
      if i < |a| {
        assert (a + b)[i] == a[i];
      } else {
        assert (a + b)[i] == b[i - |a|];
      }
    }
  }

  // ---------------------------------------------------------------------
  // transfect
  // ---------------------------------------------------------------------

  /** The number of rounds `while round > 0` runs when started at r. */
  function Rounds(r: int): nat
  {
    if r > 0 then r else 0
  }

  /** `s * k` on a Python list: k copies of `s`, one after the other. */
  function Repeat<T>(s: seq<T>, k: nat): seq<T>
  {
    if k == 0 then [] else Repeat(s, k - 1) + s
  }

  /** k copies of a list of length N have length N * k. */
  lemma {:induction false} RepeatLength<T>(s: seq<T>, k: nat)
    ensures |Repeat(s, k)| == |s| * k
  {
    if k > 0 {
      RepeatLength(s, k - 1);
      assert |s| * (k - 1) + |s| == |s| * k;
    }
  }

  /** Element q * |s| + i of `Repeat(s, k)` is s[i]: copy q, position i. */
  lemma {:induction false} RepeatAt<T>(s: seq<T>, k: nat, q: nat, i: nat)
    requires q < k && i < |s|
    ensures q * |s| + i < |Repeat(s, k)| && Repeat(s, k)[q * |s| + i] == s[i]
  {
    var L := |s|;
    var prev := Repeat(s, k - 1);
    RepeatLength(s, k - 1);
    if q < k - 1 {
      RepeatAt(s, k - 1, q, i);
      MulMonotonic(q + 1, k - 1, L);
      assert q * L + L == (q + 1) * L;
      assert (prev + s)[q * L + i] == prev[q * L + i];
    } else {
      assert q * L == L * (k - 1);
      assert (prev + s)[q * L + i] == s[i];
    }
  }

  lemma MulMonotonic(a: int, b: int, c: nat)
    requires a <= b
    ensures a * c <= b * c
  {
    assert b * c - a * c == (b - a) * c;
  }

  /** Each element occurs k times as often in `Repeat(s, k)` as in `s`. */
  lemma {:induction false} RepeatMultiset<T>(s: seq<T>, k: nat)
    ensures forall x :: multiset(Repeat(s, k))[x] == k * multiset(s)[x]
  {
    if k > 0 {
      RepeatMultiset(s, k - 1);
      assert multiset(Repeat(s, k)) == multiset(Repeat(s, k - 1)) + multiset(s);
      forall x
        ensures multiset(Repeat(s, k))[x] == k * multiset(s)[x]
      {
        var m := multiset(s)[x];
        assert multiset(Repeat(s, k))[x] == multiset(Repeat(s, k - 1))[x] + m;
        assert (k - 1) * m + m == k * m;
      }
    }
  }

  /** The recordings of `count` successive calls of `generate_recording`. */
  function Recordings(n: int, p: real, s: Script, count: nat): (res: (seq<seq<int>>, Script))
    requires 2 <= n || count == 0
    requires p <= 1.0 && s.Valid(n)
    ensures |res.0| == count && res.1.Valid(n)
  {
    if count == 0 then ([], s)
    else
      var (recs, s1) := Recordings(n, p, s, count - 1);
      var (rec, s2) := Generated(n, p, s1);
      (recs + [rec], s2)
  }

  lemma RecordingsStep(n: int, p: real, s: Script, k: nat, recs: seq<seq<int>>, mid: Script, rec: seq<int>, after: Script)
    requires 2 <= n && p <= 1.0 && s.Valid(n)
    requires (recs, mid) == Recordings(n, p, s, k)
    requires (rec, after) == Generated(n, p, mid)
    ensures (recs + [rec], after) == Recordings(n, p, s, k + 1)
  {
  }

  /** Every recording of the sequence lies in [1, n). */
  lemma {:induction false} RecordingsInRange(n: int, p: real, s: Script, count: nat)
    requires 2 <= n || count == 0
    requires p <= 1.0 && s.Valid(n)
    ensures forall j :: 0 <= j < count ==> InRange(Recordings(n, p, s, count).0[j], n)
  {
    if count > 0 {
      RecordingsInRange(n, p, s, count - 1);
      var (recs, s1) := Recordings(n, p, s, count - 1);
      GeneratedInRange(n, p, s1);
    }
  }

  /** Transfection reads no swap draws, so the shuffles between transfections do not matter. */
  lemma {:induction false} RecordingsSameDraws(n: int, p: real, s: Script, t: Script, count: nat)
    requires 2 <= n || count == 0
    requires p <= 1.0 && s.Valid(n) && s.SameDraws(t)
    ensures t.Valid(n)
    ensures Recordings(n, p, s, count).0 == Recordings(n, p, t, count).0
    ensures Recordings(n, p, s, count).1.SameDraws(Recordings(n, p, t, count).1)
  {
    assert t.Valid(n);
    if count > 0 {
      RecordingsSameDraws(n, p, s, t, count - 1);
      GeneratedSameDraws(n, p, Recordings(n, p, s, count - 1).1, Recordings(n, p, t, count - 1).1);
    }
  }

  /**
   * What cell `c` gains when the t-th visit of `visits` extends the visited
   * cell by `recs[t]`: the recordings of the visits to `c`, in visiting order.
   */
  function Gained(visits: seq<Cell>, recs: seq<seq<int>>, c: Cell): seq<int>
  {
    if visits == [] || recs == [] then []
    else
      Gained(visits[..|visits| - 1], recs[..|recs| - 1], c) +
      (if visits[|visits| - 1] == c then recs[|recs| - 1] else [])
  }

  lemma GainedSnoc(visits: seq<Cell>, recs: seq<seq<int>>, x: Cell, rec: seq<int>)
    requires |visits| == |recs|
    ensures forall c :: Gained(visits + [x], recs + [rec], c) ==
                        Gained(visits, recs, c) + (if x == c then rec else [])
  {
    assert (visits + [x])[..|visits|] == visits;
    assert (recs + [rec])[..|recs|] == recs;
  }

  /** A cell that is never visited gains nothing. */
  lemma {:induction false} GainedUnvisited(visits: seq<Cell>, recs: seq<seq<int>>, c: Cell)
    requires |visits| == |recs| && c !in visits
    ensures Gained(visits, recs, c) == []
  {
    if visits != [] {
      assert c !in visits[..|visits| - 1];
      GainedUnvisited(visits[..|visits| - 1], recs[..|recs| - 1], c);
    }
  }

  /**
   * With no cell visited twice (value semantics), the cell of visit i
   * gains exactly the recording drawn at visit i.
   */
  lemma {:induction false} GainedDistinct(visits: seq<Cell>, recs: seq<seq<int>>, i: nat)
    requires |visits| == |recs| && i < |visits|
    requires forall a, b :: 0 <= a < b < |visits| ==> visits[a] != visits[b]
    ensures Gained(visits, recs, visits[i]) == recs[i]
  {
    var last := |visits| - 1;
    if i == last {
      assert visits[i] !in visits[..last];
      GainedUnvisited(visits[..last], recs[..last], visits[i]);
    } else {
      GainedDistinct(visits[..last], recs[..last], i);
    }
  }

  /** What a cell gains consists of barcodes of [1, n) when every recording does. */
  lemma {:induction false} GainedInRange(visits: seq<Cell>, recs: seq<seq<int>>, c: Cell, n: int)
    requires forall j :: 0 <= j < |recs| ==> InRange(recs[j], n)
    ensures InRange(Gained(visits, recs, c), n)
  {
    if visits != [] && recs != [] {
      var last := |recs| - 1;
      GainedInRange(visits[..|visits| - 1], recs[..last], c, n);
      var g := Gained(visits[..|visits| - 1], recs[..last], c);
      var e := if visits[|visits| - 1] == c then recs[last] else [];
      assert InRange(e, n);
      InRangeConcat(g, e, n);
    }
  }

  /**
   * Cell j of `population` holds base[j] followed by what it gained from the
   * visits `visits`, the t-th of which brought the recording recs[t].
   */
  ghost predicate Transfected(cells: seq<Cell>, base: seq<seq<int>>,
                              visits: seq<Cell>, recs: seq<seq<int>>)
    reads cells
  {
    |base| == |cells| && |visits| == |recs| &&
    forall j :: 0 <= j < |cells| ==> cells[j].recording == base[j] + Gained(visits, recs, cells[j])
  }

  /**
   * Whatever the visiting order and the aliasing, what a cell gains from the
   * recordings of a transfection consists of barcodes of [1, n) only.
   */
  lemma GainedRecordingsInRange(n: int, p: real, s: Script, visits: seq<Cell>, c: Cell)
    requires 2 <= n || visits == []
    requires p <= 1.0 && s.Valid(n)
    ensures InRange(Gained(visits, Recordings(n, p, s, |visits|).0, c), n)
  {
    RecordingsInRange(n, p, s, |visits|);
    GainedInRange(visits, Recordings(n, p, s, |visits|).0, c, n);
  }

  /**
   * `transfect(n, p, r, population)`: for each of r rounds, extend each cell
   * of the population, in index order, by a fresh recording.  The visits
   * are population[0..N) once per round, so a cell that occurs several times
   * is extended once per occurrence.
   */
  method Transfect(n: int, p: real, r: int, population: array<Cell>, rng: Rng)
    returns (result: array<Cell>)
    requires population.Length > 0 && r > 0 ==> 2 <= n
    requires p <= 1.0 && rng.script.Valid(n)
    modifies rng, population[..]
    ensures result == population
    ensures var visits := Repeat(population[..], Rounds(r));
            (2 <= n || visits == []) &&
            var (recs, s) := Recordings(n, p, old(rng.script), |visits|);
            rng.script == s &&
            forall j :: 0 <= j < population.Length ==>
              population[j].recording == old(population[j].recording) + Gained(visits, recs, population[j])
    ensures r <= 0 ==> rng.script == old(rng.script) &&
                       forall j :: 0 <= j < population.Length ==>
                         population[j].recording == old(population[j].recording)
    ensures rng.script.Valid(n)
  {
    var N := population.Length;
    ghost var s0 := rng.script;
    ghost var cells := population[..];
    ghost var base := seq(N, j requires 0 <= j < N reads population, population[..] => population[j].recording);
    ghost var visits: seq<Cell> := [];
    ghost var recs: seq<seq<int>> := [];
    ghost var done: nat := 0;
    var round := r;
    while round > 0
      invariant round <= r && done == Rounds(r) - Rounds(round)
      invariant 2 <= n || visits == []
      invariant visits == Repeat(cells, done)
      invariant (recs, rng.script) == Recordings(n, p, s0, |visits|)
      invariant Transfected(cells, base, visits, recs)
    {
      visits, recs := TransfectRound(n, p, population, rng, s0, base, cells, done, visits, recs);
      done := done + 1;
      round := round - 1;
    }
    result := population;
  }

  /**
   * One round of `transfect`, the loop `for i in range(N)`: extend each
   * cell, in index order, by a fresh recording.  `base[j]` is what cell j
   * held before the first round; `visits` and `recs` are the visits and the
   * recordings of the earlier rounds.
   */
  method TransfectRound(n: int, p: real, population: array<Cell>, rng: Rng,
                        ghost s0: Script, ghost base: seq<seq<int>>, ghost cells: seq<Cell>,
                        ghost done: nat, ghost visits: seq<Cell>, ghost recs: seq<seq<int>>)
    returns (ghost visits': seq<Cell>, ghost recs': seq<seq<int>>)
    requires cells == population[..]
    requires population.Length > 0 ==> 2 <= n
    requires 2 <= n || visits == []
    requires p <= 1.0 && s0.Valid(n)
    requires visits == Repeat(cells, done)
    requires (recs, rng.script) == Recordings(n, p, s0, |visits|)
    requires Transfected(cells, base, visits, recs)
    modifies rng, cells
    ensures visits' == Repeat(cells, done + 1)
    ensures 2 <= n || visits' == []
    ensures (recs', rng.script) == Recordings(n, p, s0, |visits'|)
    ensures Transfected(cells, base, visits', recs')
  {
    var N := population.Length;
    visits', recs' := visits, recs;
    for i := 0 to N
      invariant visits' == visits + cells[..i]
      invariant (recs', rng.script) == Recordings(n, p, s0, |visits'|)
      invariant Transfected(cells, base, visits', recs')
    {
      ghost var v := visits';
      visits', recs' := TransfectCell(n, p, population, i, rng, s0, base, cells, visits', recs');
      VisitNext(visits, cells, i, v, visits');
    }
    assert cells[..N] == cells;
  }

  /** Visiting cell i after cells ..i of a round has visited cells ..i + 1. */
  lemma VisitNext(visits: seq<Cell>, cells: seq<Cell>, i: int, v: seq<Cell>, v': seq<Cell>)
    requires 0 <= i < |cells| && v == visits + cells[..i] && v' == v + [cells[i]]
    ensures v' == visits + cells[..i + 1]
  {
    assert cells[..i + 1] == cells[..i] + [cells[i]];
  }

  /** One step of the round: `population[i].extend(generate_recording(n, p))`. */
  method TransfectCell(n: int, p: real, population: array<Cell>, i: nat, rng: Rng,
                       ghost s0: Script, ghost base: seq<seq<int>>, ghost cells: seq<Cell>,
                       ghost visits: seq<Cell>, ghost recs: seq<seq<int>>)
    returns (ghost visits': seq<Cell>, ghost recs': seq<seq<int>>)
    requires cells == population[..] && i < population.Length && 2 <= n
    requires p <= 1.0 && s0.Valid(n)
    requires (recs, rng.script) == Recordings(n, p, s0, |visits|)
    requires Transfected(cells, base, visits, recs)
    modifies rng, cells[i]
    ensures visits' == visits + [cells[i]]
    ensures (recs', rng.script) == Recordings(n, p, s0, |visits'|)
    ensures Transfected(cells, base, visits', recs')
  {
    ghost var before := rng.script;
    var rec := GenerateRecording(n, p, rng);
    RecordingsStep(n, p, s0, |visits|, recs, before, rec, rng.script);
    ExtendAt(population, cells, i, rec, base, visits, recs);
    visits', recs' := visits + [cells[i]], recs + [rec];
  }

  /**
   * `population[i].extend(rec)`: cell i gains `rec`, and so does every
   * other index that holds the same cell.
   */
  method ExtendAt(population: array<Cell>, ghost cells: seq<Cell>, i: nat, rec: seq<int>,
                  ghost base: seq<seq<int>>, ghost visits: seq<Cell>, ghost recs: seq<seq<int>>)
    requires cells == population[..] && i < |cells|
    requires Transfected(cells, base, visits, recs)
    modifies cells[i]
    ensures Transfected(cells, base, visits + [cells[i]], recs + [rec])
  {
    var cell := population[i];
    cell.Extend(rec);
    GainedSnoc(visits, recs, cell, rec);
    forall j | 0 <= j < |cells|
      ensures cells[j].recording == base[j] + Gained(visits + [cell], recs + [rec], cells[j])
    {
      if cells[j] != cell {
        assert cells[j].recording == old(cells[j].recording);
      }
    }
  }

  /** The draws of the aliasing example: two recordings, [3] and then [4]. */
  const EXAMPLE_SCRIPT := Script([0.1, 0.5, 0.1, 0.5], [3, 4], [])

  /**
   * Visiting one cell twice, as a round over a population holding it twice
   * does, gives the cell both recordings, in visiting order.
   */
  lemma AliasedGain(c: Cell)
    ensures Gained([c, c], Recordings(10, CONTINUATION, EXAMPLE_SCRIPT, 2).0, c) == [3, 4]
  {
    var s := EXAMPLE_SCRIPT;
    var s1 := Script([0.1, 0.5], [4], []);
    assert Generated(10, CONTINUATION, s) == ([3], s1);
    assert Generated(10, CONTINUATION, s1) == ([4], Script([], [], []));
    assert Recordings(10, CONTINUATION, s, 2).0 == [[3], [4]];
    var recs: seq<seq<int>> := [[3], [4]];
    assert [c, c][..1] == [c] && recs[..1] == [[3]];
    assert Gained([c], [[3]], c) == [3];
    assert Gained([c, c], recs, c) == Gained([c], [[3]], c) + [4];
  }

  /**
   * `transfect(10, 0.2, 1, [c, c])` on fresh and empty cell c: both entries
   * are the same cell, so it ends up with both recordings drawn.
   */
  method AliasedTransfection() returns (c: Cell)
    ensures c.recording == [3, 4]
  {
    c := new Cell();
    var population := new Cell[2](_ => c);
    var rng := new Rng(EXAMPLE_SCRIPT);
    assert population[..] == [c, c];
    var _ := Transfect(10, CONTINUATION, ROUNDS, population, rng);
    assert Repeat(population[..], Rounds(ROUNDS)) == [c, c];
    AliasedGain(c);
  }

  // ---------------------------------------------------------------------
  // incubate
  // ---------------------------------------------------------------------

  /** 2 ** d. */
  function Pow2(d: nat): nat
  {
    if d == 0 then 1 else 2 * Pow2(d - 1)
  }

  /**
   * `incubate(population, d)`: the list `population * 2 ** d` of references,
   * shuffled in place: a permutation of 2 ** d copies of the population.
   */
  method Incubate(population: array<Cell>, d: nat, rng: Rng) returns (result: array<Cell>)
    modifies rng
    ensures fresh(result)
    ensures result.Length == population.Length * Pow2(d)
    ensures multiset(result[..]) == multiset(Repeat(population[..], Pow2(d)))
    ensures rng.script.uniforms == old(rng.script.uniforms)
    ensures rng.script.barcodes == old(rng.script.barcodes)
  {
    result := NewList(Repeat(population[..], Pow2(d)));
    RepeatLength(population[..], Pow2(d));
    Shuffle(result, rng);
  }

  // ---------------------------------------------------------------------
  // sample
  // ---------------------------------------------------------------------

  /** `floor(n * (1 - loss))`, in exact arithmetic. */
  function Kept(size: nat, loss: real): int
  {
    ((size as real) * (1.0 - loss)).Floor
  }

  /** Where the Python slice `[:stop]` of a list of length `len` ends. */
  function SliceEnd(len: nat, stop: int): (e: nat)
    ensures e <= len
    ensures 0 <= stop <= len ==> e == stop
  {
    if stop < 0 then (if len + stop < 0 then 0 else len + stop)
    else if stop > len then len
    else stop
  }

  /**
   * For a loss fraction in [0, 1], sampling keeps exactly floor(n * (1 - loss))
   * cells, at most n of them: all of them when nothing is lost, none when
   * everything is.
   */
  lemma SampleSize(size: nat, loss: real)
    requires 0.0 <= loss <= 1.0
    ensures 0 <= Kept(size, loss) <= size
    ensures SliceEnd(size, Kept(size, loss)) == Kept(size, loss)
    ensures loss == 0.0 ==> Kept(size, loss) == size
    ensures loss == 1.0 ==> Kept(size, loss) == 0
  {
    var f := 1.0 - loss;
    assert 0.0 <= f <= 1.0;
    assert 0.0 <= (size as real) * f <= size as real by {
      assert (size as real) * f <= (size as real) * 1.0;
    }
  }

  /** With the loss fraction 0.5 of a generation step, half the cells are kept. */
  lemma KeptHalf(size: nat)
    ensures Kept(size, LOSS) == size / 2
  {
    var q := size / 2;
    assert size == 2 * q || size == 2 * q + 1;
    assert (size as real) * (1.0 - LOSS) == (size as real) / 2.0;
  }

  /**
   * `sample(clone, loss)`: shuffle `clone` in place and return a new list
   * of its first floor(n * (1 - loss)) cells.
   */
  method Sample(clone: array<Cell>, loss: real, rng: Rng) returns (result: array<Cell>)
    modifies clone, rng
    ensures multiset(clone[..]) == multiset(old(clone[..]))
    ensures fresh(result)
    ensures result[..] == clone[..SliceEnd(clone.Length, Kept(clone.Length, loss))]
    ensures multiset(result[..]) <= multiset(old(clone[..]))
    ensures rng.script.uniforms == old(rng.script.uniforms)
    ensures rng.script.barcodes == old(rng.script.barcodes)
  {
    Shuffle(clone, rng);
    var n := clone.Length;
    var N := Kept(n, loss);
    var end := SliceEnd(n, N);
    result := NewList(clone[..end]);
    assert clone[..] == clone[..end] + clone[end..];
  }

  // ---------------------------------------------------------------------
  // split
  // ---------------------------------------------------------------------

  /** Python's `floor(a / b)` for a list length a and b != 0. */
  function FloorDiv(a: nat, b: int): (q: int)
    requires b != 0
    ensures b > 0 ==> q * b <= a < (q + 1) * b
    ensures b < 0 ==> (q + 1) * b < a <= q * b
  {
    if b > 0 then a / b else -((a + (-b) - 1) / (-b))
  }

  function Min(a: int, b: int): int
  {
    if a <= b then a else b
  }

  /** The lists `s[i:i+seed]` for i in range(0, len(s), seed). */
  function Chunks<T>(s: seq<T>, seed: nat): seq<seq<T>>
    requires seed > 0
    decreases |s|
  {
    if |s| == 0 then []
    else if |s| <= seed then [s]
    else [s[..seed]] + Chunks(s[seed..], seed)
  }

  /** The concatenation of a list of lists. */
  function Flatten<T>(parts: seq<seq<T>>): seq<T>
  {
    if parts == [] then [] else parts[0] + Flatten(parts[1..])
  }

  /** The chunks, put back together, are the population exactly. */
  lemma {:induction false} ChunksFlatten<T>(s: seq<T>, seed: nat)
    requires seed > 0
    ensures Flatten(Chunks(s, seed)) == s
    decreases |s|
  {
    if |s| > seed {
      ChunksFlatten(s[seed..], seed);
      assert s == s[..seed] + s[seed..];
    }
  }

  /** Every chunk but the last has length seed; the last has length in [1, seed]. */
  lemma {:induction false} ChunksSizes<T>(s: seq<T>, seed: nat)
    requires seed > 0
    ensures var c := Chunks(s, seed);
            (forall j :: 0 <= j < |c| - 1 ==> |c[j]| == seed) &&
            (|c| > 0 ==> 1 <= |c[|c| - 1]| <= seed)
    decreases |s|
  {
    if |s| > seed {
      ChunksSizes(s[seed..], seed);
      var c := Chunks(s, seed);
      var c' := Chunks(s[seed..], seed);
      assert c == [s[..seed]] + c';
      assert forall j :: 1 <= j < |c| ==> c[j] == c'[j - 1];
    }
  }

  /**
   * There are ceil(N / seed) chunks: the least C with N <= C * seed; none
   * for the empty population.
   */
  lemma {:induction false} ChunksCount<T>(s: seq<T>, seed: nat)
    requires seed > 0
    ensures var c := Chunks(s, seed);
            (|c| == 0 <==> |s| == 0) &&
            (|s| > 0 ==> (|c| - 1) * seed < |s| <= |c| * seed)
    decreases |s|
  {
    if |s| > seed {
      ChunksCount(s[seed..], seed);
      var c' := Chunks(s[seed..], seed);
      assert |Chunks(s, seed)| == |c'| + 1;
      assert (|c'| + 1) * seed == |c'| * seed + seed;
      assert |c'| * seed == (|c'| - 1) * seed + seed;
    }
  }

  /** Chunk i of a population starting at offset `lo` is the slice s[lo:lo+seed]. */
  lemma ChunksFrom<T>(s: seq<T>, lo: nat, seed: nat)
    requires seed > 0 && lo < |s|
    ensures Chunks(s[lo..], seed) ==
            [s[lo..Min(lo + seed, |s|)]] + Chunks(s[Min(lo + seed, |s|)..], seed)
  {
    var t := s[lo..];
    if |t| <= seed {
      assert s[Min(lo + seed, |s|)..] == [];
      assert s[lo..Min(lo + seed, |s|)] == t;
    } else {
      assert t[..seed] == s[lo..lo + seed];
      assert t[seed..] == s[lo + seed..];
    }
  }

  /**
   * With stride floor(N / k) >= 1 there are at least k chunks, and can be
   * more (five cells split in two give chunks of 2, 2 and 1).
   */
  lemma AtLeastPartsChunks<T>(s: seq<T>, k: int)
    requires k > 0 && FloorDiv(|s|, k) > 0
    ensures |Chunks(s, FloorDiv(|s|, k))| >= k
  {
    var seed := FloorDiv(|s|, k);
    ChunksCount(s, seed);
    var c := |Chunks(s, seed)|;
    if c < k {
      MulStrict(c, k, seed);
      assert false;
    }
  }

  lemma MulStrict(a: int, b: int, c: int)
    requires a < b && c > 0
    ensures a * c < b * c
  {
    assert b * c - a * c == (b - a) * c;
  }

  lemma FiveIntoTwo<T>(s: seq<T>)
    requires |s| == 5
    ensures Chunks(s, FloorDiv(|s|, 2)) == [s[..2], s[2..4], s[4..]]
  {
    assert FloorDiv(5, 2) == 2;
    assert s[2..][..2] == s[2..4] && s[2..][2..] == s[4..];
    assert Chunks(s[4..], 2) == [s[4..]];
    assert Chunks(s[2..], 2) == [s[2..4]] + Chunks(s[4..], 2);
  }

  /** A population of 2m cells, split in two, gives its two halves. */
  lemma {:induction false} SplitHalves<T>(s: seq<T>, m: nat)
    requires m > 0 && |s| == 2 * m
    ensures FloorDiv(|s|, PARTS) == m
    ensures Chunks(s, m) == [s[..m], s[m..]]
  {
    assert s[m..][..m] == s[m..];
  }

  /**
   * `split(population, k)`: cut the population, in the order received, into
   * the slices population[i:i+seed] for i in range(0, N, seed), where
   * seed = floor(N / k).
   */
  method Split(population: array<Cell>, k: int) returns (result: Result<seq<array<Cell>>>)
    ensures k == 0 ==> result == Err(ZeroDivision)
    ensures k != 0 && FloorDiv(population.Length, k) == 0 ==> result == Err(ZeroStep)
    ensures k != 0 && FloorDiv(population.Length, k) < 0 ==> result == Ok([])
    ensures k != 0 && FloorDiv(population.Length, k) > 0 ==>
              var chunks := Chunks(population[..], FloorDiv(population.Length, k));
              result.Ok? && |result.value| == |chunks| &&
              forall j :: 0 <= j < |chunks| ==>
                fresh(result.value[j]) && result.value[j][..] == chunks[j]
  {
    var N := population.Length;
    if k == 0 {
      return Err(ZeroDivision);
    }
    var seed := FloorDiv(N, k);
    if seed == 0 {
      return Err(ZeroStep);
    }
    if seed < 0 {
      // range(0, N, seed) with a negative step and N >= 0 is empty
      return Ok([]);
    }
    var clones: seq<array<Cell>> := [];
    ghost var done: seq<seq<Cell>> := [];
    var i := 0;
    while i < N
      invariant 0 <= i
      invariant done + Chunks(population[..][Min(i, N)..], seed) == Chunks(population[..], seed)
      invariant |clones| == |done|
      invariant forall j :: 0 <= j < |clones| ==> fresh(clones[j]) && clones[j][..] == done[j]
      decreases N - i
    {
      var hi := Min(i + seed, N);
      ChunksFrom(population[..], i, seed);
      var chunk := NewList(population[i..hi]);
      clones := clones + [chunk];
      done := done + [population[i..hi]];
      i := i + seed;
    }
    return Ok(clones);
  }

  // ---------------------------------------------------------------------
  // simulate_population
  // ---------------------------------------------------------------------

  /** All cells of all wells of a generation. */
  ghost function Cells(F: array<array<Cell>>): set<Cell>
    reads F, F[..]
  {
    set i, j | 0 <= i < F.Length && 0 <= j < F[i].Length :: F[i][j]
  }

  /** The contents of the wells of a generation. */
  ghost function Contents(F: array<array<Cell>>): seq<seq<Cell>>
    reads F, F[..]
  {
    seq(F.Length, j requires 0 <= j < F.Length reads F, F[..] => F[j][..])
  }

  /**
   * The recordings the first loop of `simulate_population` draws: for each
   * well in turn one `transfect` of it, from where the previous one left
   * the draws.
   */
  function WellRecordings(n: int, s: Script, wells: seq<seq<Cell>>): (res: (seq<seq<seq<int>>>, Script))
    requires forall k :: 0 <= k < |wells| ==> |wells[k]| == 0 || 2 <= n
    requires s.Valid(n)
    ensures |res.0| == |wells| && res.1.Valid(n)
  {
    if wells == [] then ([], s)
    else
      var k := |wells| - 1;
      NextWell(n, WellRecordings(n, s, wells[..k]), wells[k])
  }

  /** The transfection of one more well `w`, from the recordings and draws `acc` of the wells before it. */
  function NextWell(n: int, acc: (seq<seq<seq<int>>>, Script), w: seq<Cell>): (res: (seq<seq<seq<int>>>, Script))
    requires |w| == 0 || 2 <= n
    requires acc.1.Valid(n)
    ensures |res.0| == |acc.0| + 1 && res.0[..|acc.0|] == acc.0
    ensures res.1.Valid(n)
  {
    var (r, t) := Recordings(n, CONTINUATION, acc.1, |w|);
    (acc.0 + [r], t)
  }

  /** What cell `c` gains from the transfections of all wells, well after well. */
  function GainedAll(wells: seq<seq<Cell>>, recss: seq<seq<seq<int>>>, c: Cell): seq<int>
  {
    if wells == [] || recss == [] then []
    else
      GainedAll(wells[..|wells| - 1], recss[..|recss| - 1], c) +
      Gained(wells[|wells| - 1], recss[|recss| - 1], c)
  }

  /** A recording that gained the first i wells' share and then well i's holds the first i + 1 wells' share. */
  lemma GainedAllSnoc(wells: seq<seq<Cell>>, recss: seq<seq<seq<int>>>, i: nat, r: seq<seq<int>>, c: Cell,
                      o: seq<int>, m: seq<int>, now: seq<int>)
    requires i < |wells| && |recss| == i
    requires m == o + GainedAll(wells[..i], recss, c) && now == m + Gained(wells[i], r, c)
    ensures now == o + GainedAll(wells[..i + 1], recss + [r], c)
  {
    assert wells[..i + 1][..i] == wells[..i];
    assert (recss + [r])[..i] == recss;
    assert now == o + (GainedAll(wells[..i], recss, c) + Gained(wells[i], r, c));
  }

  /** Every recording drawn for the wells lies in [1, n). */
  lemma {:induction false} WellRecordingsInRange(n: int, s: Script, wells: seq<seq<Cell>>)
    requires forall k :: 0 <= k < |wells| ==> |wells[k]| == 0 || 2 <= n
    requires s.Valid(n)
    ensures forall k, j :: 0 <= k < |WellRecordings(n, s, wells).0| && 0 <= j < |WellRecordings(n, s, wells).0[k]| ==>
              InRange(WellRecordings(n, s, wells).0[k][j], n)
  {
    if wells != [] {
      var k := |wells| - 1;
      WellRecordingsInRange(n, s, wells[..k]);
      var rs := WellRecordings(n, s, wells[..k]).0;
      var t := WellRecordings(n, s, wells[..k]).1;
      RecordingsInRange(n, CONTINUATION, t, |wells[k]|);
      var r := Recordings(n, CONTINUATION, t, |wells[k]|).0;
      assert WellRecordings(n, s, wells).0 == rs + [r];
      forall k', j | 0 <= k' < |rs + [r]| && 0 <= j < |(rs + [r])[k']|
        ensures InRange((rs + [r])[k'][j], n)
      {
        if k' < k {
          assert (rs + [r])[k'] == rs[k'];
          assert InRange(rs[k'][j], n);
        } else {
          assert (rs + [r])[k'] == r;
        }
      }
    }
  }

  /** What a cell gains from all wells consists of barcodes of [1, n) when every recording does. */
  lemma {:induction false} GainedAllInRange(wells: seq<seq<Cell>>, recss: seq<seq<seq<int>>>, c: Cell, n: int)
    requires forall k, j :: 0 <= k < |recss| && 0 <= j < |recss[k]| ==> InRange(recss[k][j], n)
    ensures InRange(GainedAll(wells, recss, c), n)
  {
    if wells != [] && recss != [] {
      var k := |recss| - 1;
      GainedAllInRange(wells[..|wells| - 1], recss[..k], c, n);
      GainedInRange(wells[|wells| - 1], recss[k], c, n);
      InRangeConcat(GainedAll(wells[..|wells| - 1], recss[..k], c), Gained(wells[|wells| - 1], recss[k], c), n);
    }
  }

  /**
   * The body of the first loop of `simulate_population` for one well:
   * `sample(incubate(transfect(n, 0.2, 1, well), 2), 0.5)`, with `cells`
   * the contents of the well.  Each cell gains the recordings of its visits
   * in index order; the new well holds 2N of the 4N replicas.
   */
  method Generation(well: array<Cell>, n: int, rng: Rng, ghost cells: seq<Cell>)
    returns (sampled: array<Cell>)
    requires well[..] == cells && (|cells| == 0 || 2 <= n)
    requires rng.script.Valid(n)
    modifies rng, well[..]
    ensures fresh(sampled)
    ensures sampled.Length == 2 * well.Length
    ensures Replicas(cells, sampled[..])
    ensures var (recs, s) := Recordings(n, CONTINUATION, old(rng.script), |cells|);
            rng.script.SameDraws(s) &&
            forall j :: 0 <= j < |cells| ==>
              cells[j].recording == old(cells[j].recording) + Gained(cells, recs, cells[j])
    ensures rng.script.Valid(n)
  {
    var transfected := TransfectOnce(well, n, rng, cells);
    assert transfected[..] == cells;
    sampled := Replicate(transfected, rng, cells);
  }

  /** `transfect(n, 0.2, 1, well)`: one round with continuation probability 0.2. */
  method TransfectOnce(well: array<Cell>, n: int, rng: Rng, ghost cells: seq<Cell>)
    returns (transfected: array<Cell>)
    requires well[..] == cells && (|cells| == 0 || 2 <= n)
    requires rng.script.Valid(n)
    modifies rng, well[..]
    ensures transfected == well
    ensures var (recs, s) := Recordings(n, CONTINUATION, old(rng.script), |cells|);
            rng.script == s &&
            forall j :: 0 <= j < |cells| ==>
              cells[j].recording == old(cells[j].recording) + Gained(cells, recs, cells[j])
    ensures rng.script.Valid(n)
  {
    transfected := Transfect(n, CONTINUATION, ROUNDS, well, rng);
    assert Repeat(well[..], Rounds(ROUNDS)) == well[..];
  }

  /**
   * `sample(incubate(well, 2), 0.5)`: four replicas of every reference,
   * shuffled, of which the first half is kept.
   */
  method Replicate(well: array<Cell>, rng: Rng, ghost cells: seq<Cell>) returns (sampled: array<Cell>)
    requires well[..] == cells
    modifies rng
    ensures fresh(sampled)
    ensures sampled.Length == 2 * well.Length
    ensures Replicas(cells, sampled[..])
    ensures rng.script.uniforms == old(rng.script.uniforms)
    ensures rng.script.barcodes == old(rng.script.barcodes)
  {
    var incubated := Incubate(well, DIVISIONS, rng);
    ghost var m := 2 * well.Length;
    FourTimes(well.Length, Pow2(DIVISIONS));
    KeptHalf(2 * m);
    sampled := Sample(incubated, LOSS, rng);
  }

  /** `got` is drawn from four replicas of every reference of `well`. */
  ghost predicate Replicas(well: seq<Cell>, got: seq<Cell>)
  {
    multiset(got) <= multiset(Repeat(well, Pow2(DIVISIONS)))
  }

  /** Replicas hold only cells of the well they replicate. */
  lemma ReplicasWithin(well: seq<Cell>, got: seq<Cell>)
    requires Replicas(well, got)
    ensures forall x :: x in got ==> x in well
  {
    forall x | x in got
      ensures x in well
    {
      RepeatMultiset(well, Pow2(DIVISIONS));
      assert multiset(Repeat(well, Pow2(DIVISIONS)))[x] > 0;
    }
  }

  lemma FourTimes(x: int, p: int)
    requires p == Pow2(DIVISIONS)
    ensures x * p == 2 * (2 * x)
  {
  }

  /**
   * The second loop of `simulate_population`, `split(well, 2)` for every
   * well, the clones concatenated, for wells of even size as the first loop
   * leaves them: a well of 2m >= 2 cells gives its two halves, one after the
   * other; an empty well makes `split` raise.
   */
  method Regroup(F: array<array<Cell>>) returns (result: Result<seq<array<Cell>>>)
    requires forall i :: 0 <= i < F.Length ==> F[i].Length % 2 == 0
    ensures result.Ok? <==> forall i :: 0 <= i < F.Length ==> F[i].Length > 0
    ensures result.Err? ==> result.error == ZeroStep
    ensures result.Ok? ==>
              |result.value| == 2 * F.Length &&
              forall i :: 0 <= i < F.Length ==>
                result.value[2 * i].Length == F[i].Length / 2 &&
                result.value[2 * i + 1].Length == F[i].Length / 2 &&
                result.value[2 * i][..] + result.value[2 * i + 1][..] == F[i][..]
  {
    var G: seq<array<Cell>> := [];
    for i := 0 to F.Length
      invariant |G| == 2 * i
      invariant forall j :: 0 <= j < i ==> F[j].Length > 0
      invariant forall j :: 0 <= j < i ==>
                  G[2 * j].Length == F[j].Length / 2 &&
                  G[2 * j + 1].Length == F[j].Length / 2 &&
                  G[2 * j][..] + G[2 * j + 1][..] == F[j][..]
    {
      var clones := Split(F[i], PARTS);
      if clones.Err? {
        return Err(clones.error);
      }
      SplitHalves(F[i][..], F[i].Length / 2);
      G := G + clones.value;
    }
    return Ok(G);
  }

  /** `F[i] = sample(incubate(transfect(n, 0.2, 1, F[i]), 2), 0.5)`, with `well` the old contents of F[i]. */
  method GenerationAt(F: array<array<Cell>>, i: nat, n: int, rng: Rng,
                      ghost well: seq<Cell>, ghost all: set<Cell>)
    requires i < F.Length && F[i][..] == well && (|well| == 0 || 2 <= n)
    requires rng.script.Valid(n)
    modifies F, rng, set c | c in well
    ensures fresh(F[i]) && F[i].Length == 2 * |well|
    ensures Replicas(well, F[i][..])
    ensures forall j :: 0 <= j < F.Length && j != i ==> F[j] == old(F[j])
    ensures var (recs, s) := Recordings(n, CONTINUATION, old(rng.script), |well|);
            rng.script.SameDraws(s) &&
            forall c :: c in all ==> c.recording == old(c.recording) + Gained(well, recs, c)
    ensures rng.script.Valid(n)
  {
    ghost var recs := Recordings(n, CONTINUATION, rng.script, |well|).0;
    var sampled := Generation(F[i], n, rng, well);
    forall c | c in all
      ensures c.recording == old(c.recording) + Gained(well, recs, c)
    {
      if c in well {
        var j :| 0 <= j < |well| && well[j] == c;
      } else {
        GainedUnvisited(well, recs, c);
      }
    }
    ghost var got := sampled[..];
    F[i] := sampled;
    assert F[i][..] == got;
  }

  /**
   * The first loop of `simulate_population`: every well replaced, in index
   * order.  The visits are the old wells one after the other, each in index
   * order, and each cell gains the recordings of its visits.
   */
  method Generations(F: array<array<Cell>>, n: int, rng: Rng)
    requires forall i :: 0 <= i < F.Length ==> F[i].Length == 0 || 2 <= n
    requires rng.script.Valid(n)
    modifies F, rng, Cells(F)
    ensures forall i :: 0 <= i < F.Length ==>
              fresh(F[i]) && F[i].Length == 2 * old(F[i].Length) &&
              Replicas(old(F[i][..]), F[i][..])
    ensures var (recss, s) := WellRecordings(n, old(rng.script), old(Contents(F)));
            s.SameDraws(rng.script) &&
            forall c :: c in old(Cells(F)) ==>
              c.recording == old(c.recording) + GainedAll(old(Contents(F)), recss, c)
    ensures forall c :: c in old(Cells(F)) ==> Grown(old(c.recording), c.recording, n)
    ensures Cells(F) <= old(Cells(F))
    ensures rng.script.Valid(n)
  {
    ghost var s0 := rng.script;
    ghost var orig := Recs(Cells(F));
    ghost var wells := Contents(F);
    ghost var plan := WellsPlan(n, s0, wells);
    TurnedStart(F, rng, n, wells, orig, plan);
    ghost var cur: map<Cell, seq<int>> := orig;
    ghost var now := wells;
    for i := 0 to F.Length
      invariant forall j :: 0 <= j < i ==> fresh(F[j])
      invariant Turned(F, rng, i, n, wells, orig, plan, cur, now)
    {
      cur, now := GenerationNext(F, i, n, rng, wells, orig, plan, cur, now);
    }
    TurnedEnd(F, rng, n, s0, wells, orig, plan, cur, now);
  }

  /** Before the first turn, the loop state holds with nothing done. */
  lemma TurnedStart(F: array<array<Cell>>, rng: Rng, n: int, wells: seq<seq<Cell>>,
                    orig: map<Cell, seq<int>>, plan: seq<(seq<seq<seq<int>>>, Script)>)
    requires wells == Contents(F) && orig == Recs(Cells(F)) && rng.script.Valid(n)
    requires |plan| == |wells| + 1 && plan[0] == ([], rng.script)
    requires forall k :: 0 <= k <= |wells| ==> plan[k].1.Valid(n) && |plan[k].0| == k
    requires forall k :: 0 <= k < |wells| ==> Stepped(n, wells, plan, k)
    ensures Planned(n, wells, orig, plan)
    ensures Turned(F, rng, 0, n, wells, orig, plan, orig, wells)
  {
    assert forall j, k :: 0 <= j < |wells| && 0 <= k < |wells[j]| ==> wells[j][k] in orig;
  }

  /**
   * After the last turn every well holds replicas of twice its old size, the
   * draws left are those `WellRecordings` leaves, and every cell of `orig`
   * holds its first recording plus its gains from all wells.
   */
  lemma TurnedEnd(F: array<array<Cell>>, rng: Rng, n: int, s0: Script, wells: seq<seq<Cell>>,
                  orig: map<Cell, seq<int>>, plan: seq<(seq<seq<seq<int>>>, Script)>,
                  cur: map<Cell, seq<int>>, now: seq<seq<Cell>>)
    requires forall k :: 0 <= k < |wells| ==> |wells[k]| == 0 || 2 <= n
    requires s0.Valid(n) && Planned(n, wells, orig, plan) && plan[0] == ([], s0)
    requires Turned(F, rng, |wells|, n, wells, orig, plan, cur, now)
    ensures forall i :: 0 <= i < F.Length ==> F[i].Length == 2 * |wells[i]| && Replicas(wells[i], F[i][..])
    ensures WellRecordings(n, s0, wells).1.SameDraws(rng.script) && rng.script.Valid(n)
    ensures forall c :: c in orig ==>
              c.recording == orig[c] + GainedAll(wells, WellRecordings(n, s0, wells).0, c) &&
              Grown(orig[c], c.recording, n)
    ensures Cells(F) <= orig.Keys
  {
    forall x | x in Cells(F)
      ensures x in orig
    {
      var i, j :| 0 <= i < F.Length && 0 <= j < F[i].Length && F[i][j] == x;
      ReplicasWithin(wells[i], F[i][..]);
      assert x in F[i][..];
      var k :| 0 <= k < |wells[i]| && wells[i][k] == x;
    }
    PlanFollowed(n, s0, wells, plan, |wells|);
    assert wells[..|wells|] == wells;
    GainsGrown(n, s0, wells, orig, cur);
  }

  /**
   * The state of the first loop of `simulate_population` after i turns:
   * the wells hold `now`; wells i.. still hold their old contents and wells
   * ..i twice as many cells as before, replicas of cells of the old well;
   * the draws left agree with plan[i]; and every cell of `orig` holds, as
   * `cur` says, its first recording plus what the first i wells gave it.
   */
  ghost predicate Turned(F: array<array<Cell>>, rng: Rng, i: nat, n: int, wells: seq<seq<Cell>>,
                         orig: map<Cell, seq<int>>, plan: seq<(seq<seq<seq<int>>>, Script)>,
                         cur: map<Cell, seq<int>>, now: seq<seq<Cell>>)
    reads F, F[..], rng, orig.Keys
  {
    F.Length == |wells| == |now| && i <= F.Length && |plan| == |wells| + 1 &&
    (forall j :: 0 <= j < F.Length ==> F[j][..] == now[j]) &&
    Made(wells, now, i) &&
    rng.script.Valid(n) && plan[i].1.SameDraws(rng.script) &&
    (forall c :: c in orig ==> c in cur && c.recording == cur[c]) &&
    Gains(wells[..i], plan[i].0, orig, cur)
  }

  /** Wells ..i of `now` replicate those of `wells` twice over, the others are those of `wells`. */
  ghost predicate Made(wells: seq<seq<Cell>>, now: seq<seq<Cell>>, i: int)
  {
    |now| == |wells| && 0 <= i <= |now| &&
    (forall j :: 0 <= j < i ==> |now[j]| == 2 * |wells[j]| && Replicas(wells[j], now[j])) &&
    (forall j :: i <= j < |now| ==> now[j] == wells[j])
  }

  /** Replacing well i by replicas of its cells makes one more well of `Made`. */
  lemma MadeNext(wells: seq<seq<Cell>>, now: seq<seq<Cell>>, i: int, got: seq<Cell>)
    requires Made(wells, now, i) && i < |now|
    requires |got| == 2 * |wells[i]| && Replicas(wells[i], got)
    ensures Made(wells, now[i := got], i + 1)
  {
  }

  /** `plan` follows the wells, all of whose cells are in `orig`. */
  ghost predicate Planned(n: int, wells: seq<seq<Cell>>, orig: map<Cell, seq<int>>,
                          plan: seq<(seq<seq<seq<int>>>, Script)>)
  {
    |plan| == |wells| + 1 &&
    (forall j, k :: 0 <= j < |wells| && 0 <= k < |wells[j]| ==> wells[j][k] in orig) &&
    (forall k :: 0 <= k <= |wells| ==> |plan[k].0| == k) &&
    (forall k :: 0 <= k < |wells| ==> Stepped(n, wells, plan, k))
  }

  /** One turn of the first loop of `simulate_population`, replacing F[i]; `cur` and `next` are the recordings before and after it. */
  method GenerationNext(F: array<array<Cell>>, i: nat, n: int, rng: Rng, ghost wells: seq<seq<Cell>>,
                        ghost orig: map<Cell, seq<int>>, ghost plan: seq<(seq<seq<seq<int>>>, Script)>,
                        ghost cur: map<Cell, seq<int>>, ghost now: seq<seq<Cell>>)
    returns (ghost next: map<Cell, seq<int>>, ghost after: seq<seq<Cell>>)
    requires i < F.Length && Planned(n, wells, orig, plan)
    requires Turned(F, rng, i, n, wells, orig, plan, cur, now)
    modifies F, rng, orig.Keys
    ensures fresh(F[i])
    ensures forall j :: 0 <= j < F.Length && j != i ==> F[j] == old(F[j])
    ensures Turned(F, rng, i + 1, n, wells, orig, plan, next, after)
  {
    assert Stepped(n, wells, plan, i);
    ghost var before := rng.script;
    ghost var recs := Recordings(n, CONTINUATION, before, |wells[i]|).0;
    GenerationAt(F, i, n, rng, wells[i], orig.Keys);
    next := Recs(orig.Keys);
    after := now[i := F[i][..]];
    MadeNext(wells, now, i, F[i][..]);
    assert forall c :: c in orig ==> c in cur && c in next && next[c] == cur[c] + Gained(wells[i], recs, c);
    RecordingsSameDraws(n, CONTINUATION, plan[i].1, before, |wells[i]|);
    assert plan[i + 1].0 == plan[i].0 + [recs];
    GainsNext(wells, i, plan[i].0, recs, orig, cur, next);
  }

  /**
   * The recordings and draws after the first k wells, for every k: what
   * `WellRecordings` computes for `wells[..k]`, as a lemma's result so that
   * the loop above sees only the facts stated here.
   */
  lemma WellsPlan(n: int, s0: Script, wells: seq<seq<Cell>>) returns (plan: seq<(seq<seq<seq<int>>>, Script)>)
    requires forall k :: 0 <= k < |wells| ==> |wells[k]| == 0 || 2 <= n
    requires s0.Valid(n)
    ensures |plan| == |wells| + 1 && plan[0] == ([], s0)
    ensures forall k :: 0 <= k <= |wells| ==> plan[k].1.Valid(n) && |plan[k].0| == k
    ensures forall k :: 0 <= k < |wells| ==> Stepped(n, wells, plan, k)
  {
    plan := seq(|wells| + 1, k requires 0 <= k <= |wells| => WellRecordings(n, s0, wells[..k]));
    forall k | 0 <= k < |wells|
      ensures Stepped(n, wells, plan, k)
    {
      assert wells[..k + 1][..k] == wells[..k];
    }
  }

  /** A plan that starts from `s0` and follows every well holds what `WellRecordings` computes. */
  lemma {:induction false} PlanFollowed(n: int, s0: Script, wells: seq<seq<Cell>>,
                                        plan: seq<(seq<seq<seq<int>>>, Script)>, k: nat)
    requires forall k :: 0 <= k < |wells| ==> |wells[k]| == 0 || 2 <= n
    requires s0.Valid(n) && k <= |wells|
    requires |plan| == |wells| + 1 && plan[0] == ([], s0)
    requires forall k :: 0 <= k < |wells| ==> Stepped(n, wells, plan, k)
    ensures plan[k] == WellRecordings(n, s0, wells[..k])
  {
    if k > 0 {
      PlanFollowed(n, s0, wells, plan, k - 1);
      assert Stepped(n, wells, plan, k - 1);
      assert wells[..k][..k - 1] == wells[..k - 1];
    }
  }

  /** Entry k + 1 of `plan` follows from entry k by the transfection of well k. */
  ghost predicate Stepped(n: int, wells: seq<seq<Cell>>, plan: seq<(seq<seq<seq<int>>>, Script)>, k: int)
  {
    0 <= k < |wells| && k + 1 < |plan| && (|wells[k]| == 0 || 2 <= n) && plan[k].1.Valid(n) &&
    plan[k + 1] == NextWell(n, plan[k], wells[k])
  }

  /** The recordings the cells of `cs` hold. */
  ghost function Recs(cs: set<Cell>): map<Cell, seq<int>>
    reads cs
  {
    map c | c in cs :: c.recording
  }

  /**
   * Every cell of `orig` holds in `now` its recording of `orig` plus what it
   * gained from the transfections of the wells `done`, which drew `recss`.
   */
  ghost predicate Gains(done: seq<seq<Cell>>, recss: seq<seq<seq<int>>>,
                        orig: map<Cell, seq<int>>, now: map<Cell, seq<int>>)
  {
    forall c :: c in orig ==> c in now && now[c] == orig[c] + GainedAll(done, recss, c)
  }

  /** When every cell gained in `now` what well i's visits give it, `Gains` covers one more well. */
  lemma {:induction false} GainsNext(wells: seq<seq<Cell>>, i: nat, recss: seq<seq<seq<int>>>, recs: seq<seq<int>>,
                                     orig: map<Cell, seq<int>>, mid: map<Cell, seq<int>>, now: map<Cell, seq<int>>)
    requires i < |wells| && |recss| == i
    requires Gains(wells[..i], recss, orig, mid)
    requires forall c :: c in orig ==> c in mid && c in now && now[c] == mid[c] + Gained(wells[i], recs, c)
    ensures Gains(wells[..i + 1], recss + [recs], orig, now)
  {
    forall c | c in orig
      ensures now[c] == orig[c] + GainedAll(wells[..i + 1], recss + [recs], c)
    {
      GainedAllSnoc(wells, recss, i, recs, c, orig[c], mid[c], now[c]);
    }
  }

  /** Once all wells were transfected, every recording of `orig` has grown by barcodes of [1, n). */
  lemma {:induction false} GainsGrown(n: int, s0: Script, wells: seq<seq<Cell>>,
                                      orig: map<Cell, seq<int>>, now: map<Cell, seq<int>>)
    requires forall k :: 0 <= k < |wells| ==> |wells[k]| == 0 || 2 <= n
    requires s0.Valid(n)
    requires Gains(wells, WellRecordings(n, s0, wells).0, orig, now)
    ensures forall c :: c in orig ==> c in now && Grown(orig[c], now[c], n)
  {
    forall c | c in orig
      ensures Grown(orig[c], now[c], n)
    {
      WellGainsInRange(n, s0, wells, c);
      GrownBy(orig[c], GainedAll(wells, WellRecordings(n, s0, wells).0, c), n);
    }
  }

  /** What a cell gains from the transfections of all wells consists of barcodes of [1, n). */
  lemma WellGainsInRange(n: int, s: Script, wells: seq<seq<Cell>>, c: Cell)
    requires forall k :: 0 <= k < |wells| ==> |wells[k]| == 0 || 2 <= n
    requires s.Valid(n)
    ensures InRange(GainedAll(wells, WellRecordings(n, s, wells).0, c), n)
  {
    WellRecordingsInRange(n, s, wells);
    GainedAllInRange(wells, WellRecordings(n, s, wells).0, c, n);
  }

  /**
   * `simulate_population(F, n)`: first replace every well F[i], in place, by
   * `sample(incubate(transfect(n, 0.2, 1, F[i]), 2), 0.5)`; then split every
   * well in two and concatenate the clones.  A well of m >= 1 cells becomes
   * two consecutive clones of m cells; an empty well makes `split` raise,
   * after all wells were already replaced.
   */
  method SimulatePopulation(F: array<array<Cell>>, n: int, rng: Rng)
    returns (result: Result<seq<array<Cell>>>)
    requires forall i :: 0 <= i < F.Length ==> F[i].Length == 0 || 2 <= n
    requires rng.script.Valid(n)
    modifies F, rng, Cells(F)
    ensures forall i :: 0 <= i < F.Length ==>
              fresh(F[i]) && F[i].Length == 2 * old(F[i].Length) &&
              Replicas(old(F[i][..]), F[i][..])
    ensures var (recss, s) := WellRecordings(n, old(rng.script), old(Contents(F)));
            s.SameDraws(rng.script) &&
            forall c :: c in old(Cells(F)) ==>
              c.recording == old(c.recording) + GainedAll(old(Contents(F)), recss, c)
    ensures forall c :: c in old(Cells(F)) ==> Grown(old(c.recording), c.recording, n)
    ensures Cells(F) <= old(Cells(F))
    ensures rng.script.Valid(n)
    ensures result.Ok? <==> forall i :: 0 <= i < F.Length ==> old(F[i].Length) > 0
    ensures result.Err? ==> result.error == ZeroStep
    ensures result.Ok? ==>
              |result.value| == 2 * F.Length &&
              forall i :: 0 <= i < F.Length ==>
                result.value[2 * i].Length == old(F[i].Length) &&
                result.value[2 * i + 1].Length == old(F[i].Length) &&
                result.value[2 * i][..] + result.value[2 * i + 1][..] == F[i][..]
    ensures result.Ok? ==>
              forall q, j :: 0 <= q < |result.value| && 0 <= j < result.value[q].Length ==>
                result.value[q][j] in old(Cells(F))
  {
    ghost var cells := Cells(F);
    Generations(F, n, rng);
    result := Regroup(F);
    if result.Ok? {
      ClonesWithin(F, result.value, cells);
    }
  }

  /** Every cell of the clones of the wells of F is a cell of F, hence of any `cells` that holds those. */
  lemma ClonesWithin(F: array<array<Cell>>, clones: seq<array<Cell>>, cells: set<Cell>)
    requires Cells(F) <= cells && |clones| == 2 * F.Length
    requires forall i :: 0 <= i < F.Length ==>
               clones[2 * i][..] + clones[2 * i + 1][..] == F[i][..]
    ensures forall q, j :: 0 <= q < |clones| && 0 <= j < clones[q].Length ==> clones[q][j] in cells
  {
    forall q, j | 0 <= q < |clones| && 0 <= j < clones[q].Length
      ensures clones[q][j] in cells
    {
      var i := q / 2;
      var whole := clones[2 * i][..] + clones[2 * i + 1][..];
      assert whole == F[i][..];
      if q == 2 * i {
        assert whole[j] == clones[q][j];
        assert F[i][j] == clones[q][j];
      } else {
        assert whole[clones[2 * i].Length + j] == clones[q][j];
        assert F[i][clones[2 * i].Length + j] == clones[q][j];
      }
    }
  }
}
