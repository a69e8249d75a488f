/**
 * The significance indicator, the merged CHR and POS, the four indicator
 * classes and the degrees of freedom of the slope test
 * (src/gwaslab/compare_effect.py, steps 18 and the partition after step 19).
 */
module Significance {
  import opened Wrappers
  import opened Sources
  import opened Merge

  /** `P < sig_level` on a cell; a comparison with a missing value is false. */
  predicate Below(p: Option<real>, alpha: real)
  {
    p.Some? && p.value < alpha
  }

  /** The 2-bit indicator: bit 1 for source 1, bit 2 for source 2. */
  function Indicator(p1: Option<real>, p2: Option<real>, alpha: real): (k: int)
    ensures 0 <= k <= 3
    ensures k % 2 == 1 <==> Below(p1, alpha)
    ensures k >= 2 <==> Below(p2, alpha)
    ensures k == 0 <==> !Below(p1, alpha) && !Below(p2, alpha)
  {
    (if Below(p1, alpha) then 1 else 0) + (if Below(p2, alpha) then 2 else 0)
  }

  /** Every row's indicator set from its two P values; nothing else changes. */
  function Classified(t: Table, alpha: real): (r: Table)
    ensures r.Keys == t.Keys
    ensures forall id :: id in r ==> r[id].indicator == Indicator(t[id].first.p, t[id].second.p, alpha)
    ensures forall id :: id in r ==> r[id] == t[id].(indicator := r[id].indicator)
  {
    map id | id in t :: t[id].(indicator := Indicator(t[id].first.p, t[id].second.p, alpha))
  }

  /** The row-wise maximum of two cells, skipping a missing one. */
  function MaxPresent(a: Option<int>, b: Option<int>): (m: Option<int>)
    ensures m.None? <==> a.None? && b.None?
    ensures m == a || m == b
    ensures a.Some? ==> m.Some? && m.value >= a.value
    ensures b.Some? ==> m.Some? && m.value >= b.value
  {
    match (a, b)
    case (Some(x), Some(y)) => if x >= y then a else b
    case (Some(_), None) => a
    case (None, _) => b
  }

  /** The merged CHR and POS can be cast to integers: no row lacks both values of either. */
  predicate PositionsCastable(t: Table)
    ensures PositionsCastable(t) <==>
              forall id :: id in t ==>
                MaxPresent(t[id].first.chr, t[id].second.chr).Some? && MaxPresent(t[id].first.pos, t[id].second.pos).Some?
  {
    forall id :: id in t ==>
      (t[id].first.chr.Some? || t[id].second.chr.Some?) && (t[id].first.pos.Some? || t[id].second.pos.Some?)
  }

  /**
   * CHR and POS become the maximum of the present values of the two sources and
   * the per-source CHR and POS columns are dropped; nothing else changes.
   */
  function MergedPositions(t: Table): (r: Table)
    requires PositionsCastable(t)
    ensures r.Keys == t.Keys
    ensures forall id :: id in r ==> r[id].chr.Some? && r[id].pos.Some?
    ensures forall id :: id in r ==> r[id].chr == MaxPresent(t[id].first.chr, t[id].second.chr)
    ensures forall id :: id in r ==> r[id].pos == MaxPresent(t[id].first.pos, t[id].second.pos)
    ensures forall id :: id in r ==>
              r[id] == t[id].(chr := r[id].chr, pos := r[id].pos,
                              first := t[id].first.(chr := None, pos := None),
                              second := t[id].second.(chr := None, pos := None))
  {
    map id | id in t ::
      t[id].(chr := MaxPresent(t[id].first.chr, t[id].second.chr),
             pos := MaxPresent(t[id].first.pos, t[id].second.pos),
             first := t[id].first.(chr := None, pos := None),
             second := t[id].second.(chr := None, pos := None))
  }

  /**
   * A row with no missing cell among the columns the table holds in this
   * configuration (`dropna`): the P, allele and effect columns of both sources
   * and the aligned columns, the third effect column and the aligned bounds in
   * odds-ratio mode, and the merged CHR and POS when they were loaded.
   */
  predicate Complete(r: Row, mode: Mode, withPos: bool)
  {
    && r.first.p.Some? && r.second.p.Some?
    && r.first.ea.Some? && r.first.nea.Some? && r.first.est.Some? && r.first.lo.Some?
    && r.second.ea.Some? && r.second.nea.Some? && r.second.est.Some? && r.second.lo.Some?
    && r.aligned.ea.Some? && r.aligned.nea.Some? && r.aligned.est.Some?
    && (mode == OddsRatio ==>
          r.first.hi.Some? && r.second.hi.Some? && r.aligned.lo.Some? && r.aligned.hi.Some?)
    && (withPos ==> r.chr.Some? && r.pos.Some?)
  }

  /**
   * The `dropna` column set grows with the configuration: a row complete with
   * CHR and POS loaded is complete without them, and a row complete in
   * odds-ratio mode is complete in beta mode.
   */
  lemma CompleteColumnSets(r: Row, mode: Mode, withPos: bool)
    ensures Complete(r, mode, true) ==> Complete(r, mode, false)
    ensures Complete(r, OddsRatio, withPos) ==> Complete(r, Beta, withPos)
  {
  }

  /** The rows with the given indicator (`.loc[indicator == k]`). */
  function WithIndicator(t: Table, k: int): (r: Table)
    ensures r.Keys <= t.Keys
    ensures forall id :: id in t ==> (id in r <==> t[id].indicator == k)
    ensures forall id :: id in r ==> r[id] == t[id]
  {
    map id | id in t && t[id].indicator == k :: t[id]
  }

  /** The rows with no missing cell (`dropna`). */
  function Dropna(t: Table, mode: Mode, withPos: bool): (r: Table)
    ensures r.Keys <= t.Keys
    ensures forall id :: id in t ==> (id in r <==> Complete(t[id], mode, withPos))
    ensures forall id :: id in r ==> r[id] == t[id]
  {
    map id | id in t && Complete(t[id], mode, withPos) :: t[id]
  }

  /** A table whose keys lie within another's is no larger, and is as large only when it has the same keys. */
  lemma {:induction false} SubTableSize(small: Table, large: Table)
    requires small.Keys <= large.Keys
    ensures |small| <= |large|
    ensures |small| == |large| ==> small.Keys == large.Keys
  {
    var rest := large.Keys - small.Keys;
    assert large.Keys == small.Keys + rest;
    assert small.Keys * rest == {};
    assert |large.Keys| == |small.Keys| + |rest|;
    assert |small| == |small.Keys| && |large| == |large.Keys|;
    if |small| == |large| {
      assert rest == {};
    }
  }

  /** Degrees of freedom of the slope test: the number of complete rows of the whole table, minus 2. */
  function DegreesOfFreedom(t: Table, mode: Mode, withPos: bool): (df: int)
    ensures -2 <= df <= |t| - 2
    ensures df == |t| - 2 <==> forall id :: id in t ==> Complete(t[id], mode, withPos)
  {
    var kept := Dropna(t, mode, withPos);
    SubTableSize(kept, t);
    assert kept.Keys == t.Keys <==> forall id :: id in t ==> Complete(t[id], mode, withPos);
    |Dropna(t, mode, withPos)| - 2
  }

  /** Indicators in {0,1,2,3}, as `Classified` leaves them. */
  predicate IndicatorsInRange(t: Table)
  {
    forall id :: id in t ==> 0 <= t[id].indicator <= 3
  }

  /**
   * The four indicator classes are pairwise disjoint, cover every row, and
   * their sizes add up to the size of the table.
   */
  lemma {:induction false} IndicatorClassesPartition(t: Table)
    requires IndicatorsInRange(t)
    ensures forall j, k :: 0 <= j < k <= 3 ==> WithIndicator(t, j).Keys !! WithIndicator(t, k).Keys
    ensures WithIndicator(t, 0).Keys + WithIndicator(t, 1).Keys + WithIndicator(t, 2).Keys
            + WithIndicator(t, 3).Keys == t.Keys
    ensures |WithIndicator(t, 0)| + |WithIndicator(t, 1)| + |WithIndicator(t, 2)|
            + |WithIndicator(t, 3)| == |t|
  {
    var c0, c1, c2, c3 := WithIndicator(t, 0).Keys, WithIndicator(t, 1).Keys,
                          WithIndicator(t, 2).Keys, WithIndicator(t, 3).Keys;
    assert c0 + c1 + c2 + c3 == t.Keys by {
      forall id | id in t ensures id in c0 + c1 + c2 + c3 {
        assert 0 <= t[id].indicator <= 3;
      }
    }
    assert c0 !! c1 && c0 !! c2 && c0 !! c3 && c1 !! c2 && c1 !! c3 && c2 !! c3;
    assert |c0 + c1| == |c0| + |c1|;
    assert |c0 + c1 + c2| == |c0 + c1| + |c2|;
    assert |c0 + c1 + c2 + c3| == |c0 + c1 + c2| + |c3|;
    assert |WithIndicator(t, 0)| == |c0| && |WithIndicator(t, 1)| == |c1|;
    assert |WithIndicator(t, 2)| == |c2| && |WithIndicator(t, 3)| == |c3| && |t| == |t.Keys|;
  }

  /**
   * Each class as it is counted (and drawn) is its indicator class with the
   * incomplete rows dropped, and the four of them together hold exactly the
   * complete rows: their sizes add up to the degrees of freedom plus 2.
   */
  lemma {:induction false} DroppedClassesCount(t: Table, mode: Mode, withPos: bool)
    requires IndicatorsInRange(t)
    ensures forall k :: Dropna(WithIndicator(t, k), mode, withPos) == WithIndicator(Dropna(t, mode, withPos), k)
    ensures |Dropna(WithIndicator(t, 0), mode, withPos)| + |Dropna(WithIndicator(t, 1), mode, withPos)|
            + |Dropna(WithIndicator(t, 2), mode, withPos)| + |Dropna(WithIndicator(t, 3), mode, withPos)|
            == DegreesOfFreedom(t, mode, withPos) + 2
  {
    var d := Dropna(t, mode, withPos);
    forall k ensures Dropna(WithIndicator(t, k), mode, withPos) == WithIndicator(d, k) {
      var a, b := Dropna(WithIndicator(t, k), mode, withPos), WithIndicator(d, k);
      assert a.Keys == b.Keys;
    }
    IndicatorClassesPartition(d);
  }

  /**
   * The t statistic of the slope test against the null slope, over an abstract
   * slope and standard error: zero exactly at the null slope, and of the sign
   * of the slope's distance from it.
   */
  function TScore(slope: real, nullBeta: real, stdErr: real): (score: real)
    requires stdErr > 0.0
    ensures score * stdErr == slope - nullBeta
    ensures score == 0.0 <==> slope == nullBeta
    ensures score > 0.0 <==> slope > nullBeta
  {
    (slope - nullBeta) / stdErr
  }
}
