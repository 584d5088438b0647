/**
 * The random-number source of the simulation, injected as a script.
 *
 * The original draws from numpy's global generator: `np.random.uniform()`
 * for continuation draws, `np.random.randint(1, n)` for barcodes and
 * `np.random.shuffle` for permutations.  Here every draw is read from the
 * front of a finite script; once a script is spent it keeps answering with
 * a fixed value (see `NextUniform`, `NextBarcode`, `NextSwap`), so every
 * operation is total.
 */
module Randomness {

  /** What a spent uniform script answers: no continuation probability
      admitted by the model (p <= 1) is above it, so no loop continues. */
  const SPENT_UNIFORM: real := 1.0

  /** What a spent barcode script answers; it lies in [1, n) for every n >= 2. */
  const SPENT_BARCODE: int := 1

  /** Every barcode of `bs` lies in [1, n). */
  predicate AllInSpace(bs: seq<int>, n: int)
  {
    bs == [] || (1 <= bs[0] < n && AllInSpace(bs[1..], n))
  }

  /** The draws still to come, one script per kind of draw. */
  datatype Script = Script(uniforms: seq<real>, barcodes: seq<int>, swaps: seq<nat>)
  {
    /** The generator's promise for a barcode space of size n: every
        barcode draw lies in [1, n).  Nothing is assumed of the uniform
        draws: the properties proved hold whatever reals they are. */
    predicate Valid(n: int)
    {
      AllInSpace(barcodes, n)
    }

    /** Both scripts hold the same uniform and barcode draws; their swaps may differ. */
    predicate SameDraws(t: Script)
    {
      uniforms == t.uniforms && barcodes == t.barcodes
    }

    /** One `np.random.uniform()`. */
    function NextUniform(): (real, Script)
    {
      if uniforms == [] then (SPENT_UNIFORM, this)
      else (uniforms[0], this.(uniforms := uniforms[1..]))
    }

    /** One raw `np.random.randint(1, n)`. */
    function NextBarcode(): (int, Script)
    {
      if barcodes == [] then (SPENT_BARCODE, this)
      else (barcodes[0], this.(barcodes := barcodes[1..]))
    }

    /** The partner index drawn in [0, i] at step i of a shuffle. */
    function NextSwap(i: nat): (res: (nat, Script))
      ensures res.0 <= i
    {
      if swaps == [] then (i, this)
      else (swaps[0] % (i + 1), this.(swaps := swaps[1..]))
    }
  }

  /** The shared generator: a mutable cursor into a script. */
  class Rng {
    var script: Script

    constructor (s: Script)
      ensures script == s
    {
      script := s;
    }

    method Uniform() returns (u: real)
      modifies this
      ensures (u, script) == old(script).NextUniform()
    {
      var next := script.NextUniform();
      u, script := next.0, next.1;
    }

    method Barcode() returns (b: int)
      modifies this
      ensures (b, script) == old(script).NextBarcode()
    {
      var next := script.NextBarcode();
      b, script := next.0, next.1;
    }

    method Swap(i: nat) returns (j: nat)
      modifies this
      ensures (j, script) == old(script).NextSwap(i)
      ensures j <= i
    {
      var next := script.NextSwap(i);
      j, script := next.0, next.1;
    }
  }

  /**
   * `np.random.shuffle`: Fisher-Yates in place, each partner index taken
   * from the swap script.  Every permutation of `a` is reachable by some
   * script; the only promise made is that the elements are kept.
   */
  method Shuffle<T>(a: array<T>, rng: Rng)
    modifies a, rng
    ensures multiset(a[..]) == multiset(old(a[..]))
    ensures rng.script.uniforms == old(rng.script.uniforms)
    ensures rng.script.barcodes == old(rng.script.barcodes)
  {
    var i := a.Length - 1;
    while i > 0
      invariant i < a.Length
      invariant multiset(a[..]) == multiset(old(a[..]))
      invariant rng.script.uniforms == old(rng.script.uniforms)
      invariant rng.script.barcodes == old(rng.script.barcodes)
    {
      var j := rng.Swap(i);
      a[i], a[j] := a[j], a[i];
      i := i - 1;
    }
  }
}
