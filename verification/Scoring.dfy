/** The frequency-weighted score of a candidate (link_engine.compute_scored_pairs). */
module Scoring {
  import opened Records

  const MAX_UNSCOPED_SYMBOL_DF := 8

  /** The two library functions the score uses. */
  datatype Maths = Maths(ln: nat -> real, round: real -> real)

  ghost predicate LnLike(ln: nat -> real) {
    && (forall m, n :: 1 <= m <= n ==> ln(m) <= ln(n))
    && ln(3) >= 1.0
    && (forall n :: n >= 1 ==> ln(n) <= n as real - 1.0)
  }

  /** Rounding to four places, whichever way ties go. */
  ghost predicate RoundLike(round: real -> real) {
    && (forall x, y :: x <= y ==> round(x) <= round(y))
    && (forall x :: x - 0.00005 <= round(x) <= x + 0.00005)
  }

  ghost predicate Sane(m: Maths) { LnLike(m.ln) && RoundLike(m.round) }

  function Base(kind: Kind): real { if kind.Endpoint? then 0.95 else 0.85 }

  /** base * idf, without the bonus, given the logarithm of the file frequency. */
  function Weight(kind: Kind, l: real): real
    requires l >= 0.0
  {
    Base(kind) * (1.0 / (1.0 + 0.3 * l))
  }

  /** No logarithm of a count is negative; the guard only keeps the quotient defined. */
  function Score(m: Maths, df: nat, kind: Kind, affinity: bool): real {
    if df <= 2 then 1.0
    else if m.ln(df) < 0.0 then 0.0
    else
      var raw := Weight(kind, m.ln(df)) + if affinity then 0.2 else 0.0;
      m.round(if raw < 1.0 then raw else 1.0)
  }

  lemma InverseAntitone(x: real, y: real)
    requires 0.0 < x <= y
    ensures 1.0 / x >= 1.0 / y > 0.0
  {
  }

  lemma WeightAntitone(kind: Kind, l: real, l': real)
    requires 0.0 <= l <= l'
    ensures Weight(kind, l) >= Weight(kind, l') > 0.0
  {
    InverseAntitone(1.0 + 0.3 * l, 1.0 + 0.3 * l');
  }

  lemma WeightBounds(kind: Kind, l: real)
    requires 1.0 <= l
    ensures 0.0 < Weight(kind, l) < 0.74
    ensures l <= 7.0 ==> Weight(kind, l) > 0.27
  {
    WeightAntitone(kind, 1.0, l);
    if l <= 7.0 {
      WeightAntitone(kind, l, 7.0);
    }
  }

  /** Every score that passes the gate lies in (0, 1], and is 1 exactly for keys defined in at
      most two files. */
  lemma ScoreRange(m: Maths, df: nat, kind: Kind, affinity: bool)
    requires Sane(m) && (df <= MAX_UNSCOPED_SYMBOL_DF || affinity)
    ensures 0.0 < Score(m, df, kind, affinity) <= 1.0
    ensures Score(m, df, kind, affinity) == 1.0 <==> df <= 2
  {
    if df > 2 {
      assert m.ln(3) <= m.ln(df);
      WeightBounds(kind, m.ln(df));
      assert df <= 8 ==> m.ln(df) <= df as real - 1.0 <= 7.0;
    }
  }

  /** For a fixed kind and affinity the score never grows with the number of files. */
  lemma ScoreAntitone(m: Maths, df: nat, df': nat, kind: Kind, affinity: bool)
    requires Sane(m) && df <= df' && (df' <= MAX_UNSCOPED_SYMBOL_DF || affinity)
    ensures Score(m, df, kind, affinity) >= Score(m, df', kind, affinity)
  {
    ScoreRange(m, df', kind, affinity);
    if df > 2 {
      assert m.ln(3) <= m.ln(df) <= m.ln(df');
      WeightAntitone(kind, m.ln(df), m.ln(df'));
    }
  }
}
