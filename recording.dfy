/**
 * One cell's recording: `choose_barcode` and `generate_recording`.
 *
 * `Generated` is the specification of the generator as a function of the
 * script it reads; `GenerateRecording` is the loop of the original, proved
 * to compute it.  The properties of every recording the generator can
 * return are lemmas about `Generated`.
 */
module Recording {
  import opened Randomness

  /** The fixed side boundary of the redrawing loop; it does not depend on n. */
  const SIDE: int := 7

  /** Two barcodes lie strictly on the same side of SIDE. */
  predicate SameSide(a: int, b: int)
  {
    (a > SIDE && b > SIDE) || (a < SIDE && b < SIDE)
  }

  /** Every barcode of `rec` lies in the barcode space [1, n). */
  predicate InRange(rec: seq<int>, n: int)
  {
    forall i :: 0 <= i < |rec| ==> 1 <= rec[i] < n
  }

  /** No two neighbouring barcodes of `rec` lie on the same side of SIDE. */
  ghost predicate Alternates(rec: seq<int>)
  {
    forall i, j {:trigger rec[i], rec[j]} :: 0 <= i < j < |rec| && j == i + 1 ==> !SameSide(rec[i], rec[j])
  }

  /** `choose_barcode(n)`: one draw of `randint(1, n)`. */
  function ChooseBarcode(n: int, s: Script): (res: (int, Script))
    requires 2 <= n && s.Valid(n)
    ensures 1 <= res.0 < n
    ensures res.1.Valid(n)
    ensures res.1.uniforms == s.uniforms && |res.1.barcodes| <= |s.barcodes|
  {
    s.NextBarcode()
  }

  /**
   * The redrawing loop of `generate_recording`, entered with a non-empty
   * recording `rec` and the uniform `P` drawn last: while P < p, draw a
   * candidate; stop without it when it lies on the same side of SIDE as the
   * last barcode, otherwise append it and draw a fresh P.
   */
  function Extended(n: int, p: real, rec: seq<int>, P: real, s: Script): (res: (seq<int>, Script))
    requires 2 <= n && p <= 1.0 && s.Valid(n) && rec != []
    ensures res.1.Valid(n)
    decreases |s.uniforms| + (if P < p then 1 else 0)
  {
    if !(P < p) then (rec, s)
    else
      var (b, s1) := ChooseBarcode(n, s);
      if SameSide(b, rec[|rec| - 1]) then (rec, s1)
      else
        var (P', s2) := s1.NextUniform();
        Extended(n, p, rec + [b], P', s2)
  }

  /**
   * `generate_recording(n, p)`: draw P and a first barcode; when P > p or
   * the barcode lies above the middle n/2 the recording is empty, otherwise
   * it starts with that barcode and continues as `Extended`.
   */
  function Generated(n: int, p: real, s: Script): (res: (seq<int>, Script))
    requires 2 <= n && p <= 1.0 && s.Valid(n)
    ensures res.1.Valid(n)
  {
    var (P, s1) := s.NextUniform();
    var (first, s2) := ChooseBarcode(n, s1);
    if P > p || 2 * first > n then ([], s2)
    else
      var (P', s3) := s2.NextUniform();
      Extended(n, p, [first], P', s3)
  }

  /** The loop only appends: what was recorded stays a prefix. */
  lemma {:induction false} ExtendedKeepsPrefix(n: int, p: real, rec: seq<int>, P: real, s: Script)
    requires 2 <= n && p <= 1.0 && s.Valid(n) && rec != []
    ensures rec <= Extended(n, p, rec, P, s).0
    decreases |s.uniforms| + (if P < p then 1 else 0)
  {
    if P < p {
      var (b, s1) := ChooseBarcode(n, s);
      if !SameSide(b, rec[|rec| - 1]) {
        var (P', s2) := s1.NextUniform();
        ExtendedKeepsPrefix(n, p, rec + [b], P', s2);
      }
    }
  }

  /** The loop appends only barcodes of the space [1, n). */
  lemma {:induction false} ExtendedInRange(n: int, p: real, rec: seq<int>, P: real, s: Script)
    requires 2 <= n && p <= 1.0 && s.Valid(n) && rec != []
    requires InRange(rec, n)
    ensures InRange(Extended(n, p, rec, P, s).0, n)
    decreases |s.uniforms| + (if P < p then 1 else 0)
  {
    if P < p {
      var (b, s1) := ChooseBarcode(n, s);
      if !SameSide(b, rec[|rec| - 1]) {
        var (P', s2) := s1.NextUniform();
        ExtendedInRange(n, p, rec + [b], P', s2);
      }
    }
  }

  /** A rejected candidate is never appended, so neighbours alternate sides. */
  lemma {:induction false} ExtendedAlternates(n: int, p: real, rec: seq<int>, P: real, s: Script)
    requires 2 <= n && p <= 1.0 && s.Valid(n) && rec != []
    requires Alternates(rec)
    ensures Alternates(Extended(n, p, rec, P, s).0)
    decreases |s.uniforms| + (if P < p then 1 else 0)
  {
    if P < p {
      var (b, s1) := ChooseBarcode(n, s);
      if !SameSide(b, rec[|rec| - 1]) {
        var (P', s2) := s1.NextUniform();
        var rec' := rec + [b];
        forall i, j | 0 <= i < j < |rec'| && j == i + 1
          ensures !SameSide(rec'[i], rec'[j])
        {
          if j < |rec| {
            assert rec'[i] == rec[i] && rec'[j] == rec[j];
          } else {
            assert rec'[i] == rec[|rec| - 1] && rec'[j] == b;
          }
        }
        ExtendedAlternates(n, p, rec', P', s2);
      }
    }
  }

  /**
   * The entry rule: with P and b the first uniform and the first barcode
   * drawn, the recording is empty exactly when P > p or 2 * b > n, and a
   * non-empty recording starts with b, which lies at or below the middle.
   */
  lemma GeneratedEntry(n: int, p: real, s: Script)
    requires 2 <= n && p <= 1.0 && s.Valid(n)
    ensures var (P, s1) := s.NextUniform();
            var (b, _) := ChooseBarcode(n, s1);
            var rec := Generated(n, p, s).0;
            (rec == [] <==> P > p || 2 * b > n) &&
            (rec != [] ==> rec[0] == b && 2 * b <= n)
  {
    var (P, s1) := s.NextUniform();
    var (b, s2) := ChooseBarcode(n, s1);
    if !(P > p || 2 * b > n) {
      var (P', s3) := s2.NextUniform();
      ExtendedKeepsPrefix(n, p, [b], P', s3);
    }
  }

  /** Every barcode of a recording lies in [1, n). */
  lemma GeneratedInRange(n: int, p: real, s: Script)
    requires 2 <= n && p <= 1.0 && s.Valid(n)
    ensures InRange(Generated(n, p, s).0, n)
  {
    var (P, s1) := s.NextUniform();
    var (b, s2) := ChooseBarcode(n, s1);
    if !(P > p || 2 * b > n) {
      var (P', s3) := s2.NextUniform();
      ExtendedInRange(n, p, [b], P', s3);
    }
  }

  /** No two neighbouring barcodes of a recording are both above or both below SIDE. */
  lemma GeneratedAlternates(n: int, p: real, s: Script)
    requires 2 <= n && p <= 1.0 && s.Valid(n)
    ensures Alternates(Generated(n, p, s).0)
  {
    var (P, s1) := s.NextUniform();
    var (b, s2) := ChooseBarcode(n, s1);
    if !(P > p || 2 * b > n) {
      var (P', s3) := s2.NextUniform();
      ExtendedAlternates(n, p, [b], P', s3);
    }
  }

  /** The loop reads no swap draws: scripts with the same other draws give the same recording. */
  lemma {:induction false} ExtendedSameDraws(n: int, p: real, rec: seq<int>, P: real, s: Script, t: Script)
    requires 2 <= n && p <= 1.0 && s.Valid(n) && rec != [] && s.SameDraws(t)
    ensures t.Valid(n)
    ensures Extended(n, p, rec, P, s).0 == Extended(n, p, rec, P, t).0
    ensures Extended(n, p, rec, P, s).1.SameDraws(Extended(n, p, rec, P, t).1)
    decreases |s.uniforms| + (if P < p then 1 else 0)
  {
    if P < p {
      var (b, s1) := ChooseBarcode(n, s);
      var (_, t1) := ChooseBarcode(n, t);
      if !SameSide(b, rec[|rec| - 1]) {
        var (P', s2) := s1.NextUniform();
        var (_, t2) := t1.NextUniform();
        ExtendedSameDraws(n, p, rec + [b], P', s2, t2);
      }
    }
  }

  /** `generate_recording` reads no swap draws. */
  lemma GeneratedSameDraws(n: int, p: real, s: Script, t: Script)
    requires 2 <= n && p <= 1.0 && s.Valid(n) && s.SameDraws(t)
    ensures t.Valid(n)
    ensures Generated(n, p, s).0 == Generated(n, p, t).0
    ensures Generated(n, p, s).1.SameDraws(Generated(n, p, t).1)
  {
    var (P, s1) := s.NextUniform();
    var (_, t1) := t.NextUniform();
    var (b, s2) := ChooseBarcode(n, s1);
    var (_, t2) := ChooseBarcode(n, t1);
    if !(P > p || 2 * b > n) {
      var (P', s3) := s2.NextUniform();
      var (_, t3) := t2.NextUniform();
      ExtendedSameDraws(n, p, [b], P', s3, t3);
    }
  }

  /** `generate_recording(n, p)` as the original runs it, drawing from `rng`. */
  method GenerateRecording(n: int, p: real, rng: Rng) returns (recording: seq<int>)
    requires 2 <= n && p <= 1.0 && rng.script.Valid(n)
    modifies rng
    ensures (recording, rng.script) == Generated(n, p, old(rng.script))
    ensures InRange(recording, n) && Alternates(recording)
    ensures recording != [] ==> 2 * recording[0] <= n
  {
    GeneratedEntry(n, p, rng.script);
    GeneratedInRange(n, p, rng.script);
    GeneratedAlternates(n, p, rng.script);
    recording := [];
    var P := rng.Uniform();
    var first := rng.Barcode();
    if P > p || 2 * first > n {
      return;
    }
    recording := recording + [first];
    assert recording == [first];
    P := rng.Uniform();
    while P < p
      invariant recording != [] && rng.script.Valid(n)
      invariant Extended(n, p, recording, P, rng.script) == Generated(n, p, old(rng.script))
      decreases |rng.script.uniforms| + (if P < p then 1 else 0)
    {
      var candidate := rng.Barcode();
      if candidate > SIDE && recording[|recording| - 1] > SIDE {
        break;
      } else if candidate < SIDE && recording[|recording| - 1] < SIDE {
        break;
      } else {
        recording := recording + [candidate];
        P := rng.Uniform();
      }
    }
  }
}
