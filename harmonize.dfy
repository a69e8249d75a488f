/**
 * Allele harmonisation of source 2 onto source 1's effect allele
 * (src/gwaslab/compare_effect.py, step 19): in beta mode the effect is negated
 * on a swap, in odds-ratio mode the bounds become distances from the estimate
 * and a swap takes reciprocals.
 */
module Harmonize {
  import opened Wrappers
  import opened Sources
  import opened Merge

  /** `EA_1 == EA_2` on two cells: a missing value compares unequal to everything, itself included. */
  predicate SameAllele(a: Option<string>, b: Option<string>)
    ensures SameAllele(a, b) <==> a.Some? && a == b
  {
    a.Some? && b.Some? && a.value == b.value
  }

  /** The mask `EA_1 != EA_2` of the aligned-column writes. */
  predicate Mismatch(r: Row)
    ensures Mismatch(r) <==> r.first.ea.None? || r.second.ea.None? || r.first.ea != r.second.ea
  {
    !SameAllele(r.first.ea, r.second.ea)
  }

  /** Negation of a cell; a missing value stays missing. */
  function Negate(x: Option<real>): (y: Option<real>)
    ensures y.Some? <==> x.Some?
    ensures y.Some? ==> y.value + x.value == 0.0
  {
    if x.Some? then Some(-x.value) else None
  }

  /** The beta-mode swap: exchange the allele labels and negate the effect. */
  function FlipBeta(a: Aligned): Aligned
  {
    a.(ea := a.nea, nea := a.ea, est := Negate(a.est))
  }

  /** Swapping twice restores the original alleles and effect. */
  lemma FlipBetaInvolution(a: Aligned)
    ensures FlipBeta(FlipBeta(a)) == a
  {
  }

  /** Source 2's columns copied into the aligned columns, as the first three writes of beta mode do. */
  function BetaCopy(r: Row): Aligned
  {
    r.aligned.(ea := r.second.ea, nea := r.second.nea, est := r.second.est)
  }

  /**
   * Beta-mode alignment of one row. Where the effect alleles agree, the aligned
   * columns are source 2's unchanged; otherwise the alleles are exchanged and
   * the effect negated. Either way a variant whose source-2 allele pair holds
   * source 1's effect allele ends up with that allele as its aligned effect
   * allele, and no column other than the aligned ones changes.
   */
  function AlignBetaRow(r: Row): (a: Row)
    ensures a == r.(aligned := a.aligned)
    ensures a.aligned.lo == r.aligned.lo && a.aligned.hi == r.aligned.hi
    ensures !Mismatch(r) ==>
              a.aligned.ea == r.second.ea && a.aligned.nea == r.second.nea && a.aligned.est == r.second.est
    ensures Mismatch(r) ==>
              a.aligned.ea == r.second.nea && a.aligned.nea == r.second.ea
              && (a.aligned.est.Some? <==> r.second.est.Some?)
              && (a.aligned.est.Some? ==> a.aligned.est.value == -r.second.est.value)
    ensures r.first.ea.Some? && (r.second.ea == r.first.ea || r.second.nea == r.first.ea) ==>
              a.aligned.ea == r.first.ea
  {
    r.(aligned := if Mismatch(r) then FlipBeta(BetaCopy(r)) else BetaCopy(r))
  }

  /** Beta-mode alignment of every row. */
  function AlignedBeta(t: Table): (r: Table)
    ensures r.Keys == t.Keys
    ensures forall id :: id in r ==> r[id] == AlignBetaRow(t[id])
  {
    map id | id in t :: AlignBetaRow(t[id])
  }

  /**
   * A missing effect allele on either side counts as a mismatch, so the row is
   * swapped: its aligned effect allele is source 2's non-effect allele.
   */
  lemma MissingAlleleSwaps(r: Row)
    requires r.first.ea.None? || r.second.ea.None?
    ensures AlignBetaRow(r).aligned.ea == r.second.nea
    ensures AlignBetaRow(r).aligned.nea == r.second.ea
    ensures AlignBetaRow(r).aligned.est == Negate(r.second.est)
  {
  }

  /**
   * Any disagreement is taken for a swap: when source 1's effect allele is
   * neither of source 2's alleles, the aligned effect allele still differs
   * from source 1's.
   */
  lemma UnrelatedAllelesStillSwapped(r: Row)
    requires r.first.ea.Some? && r.second.ea.Some? && r.second.nea.Some?
    requires r.first.ea != r.second.ea && r.first.ea != r.second.nea
    ensures AlignBetaRow(r).aligned.ea == r.second.nea != r.first.ea
  {
  }

  /** `|bound - OR|`; missing when either cell is. */
  function AbsDiff(bound: Option<real>, est: Option<real>): (d: Option<real>)
    ensures d.Some? <==> bound.Some? && est.Some?
    ensures d.Some? ==> d.value >= 0.0
    ensures d.Some? ==> d.value == bound.value - est.value || d.value == est.value - bound.value
  {
    if bound.Some? && est.Some? then
      Some(if bound.value >= est.value then bound.value - est.value else est.value - bound.value)
    else None
  }

  /** `1 / x` on a cell; a missing value stays missing. */
  function Recip(x: Option<real>): (y: Option<real>)
    requires x != Some(0.0)
    ensures y.Some? <==> x.Some?
    ensures y.Some? ==> y.value * x.value == 1.0
  {
    if x.Some? then Some(1.0 / x.value) else None
  }

  /** A bound that differs from its estimate, so that its distance can be inverted. */
  predicate BoundApart(bound: Option<real>, est: Option<real>)
  {
    bound.Some? && est.Some? ==> bound.value != est.value
  }

  /**
   * The odds-ratio cells of source 2 that a swap inverts are non-zero: the
   * estimate, and the distances of its bounds from it. (Division by zero would
   * give an infinity, which this model does not represent.)
   */
  predicate OddsInvertible(r: Row)
  {
    Mismatch(r) ==>
      r.second.est != Some(0.0) && BoundApart(r.second.lo, r.second.est) && BoundApart(r.second.hi, r.second.est)
  }

  /** Non-zero cells, as the odds-ratio swap needs them. */
  predicate NonZero(a: Aligned)
  {
    a.est != Some(0.0) && a.lo != Some(0.0) && a.hi != Some(0.0)
  }

  /** The odds-ratio swap: exchange the allele labels and take reciprocals of the estimate and both bound distances. */
  function FlipOdds(a: Aligned): (f: Aligned)
    requires NonZero(a)
    ensures NonZero(f)
    ensures f.ea == a.nea && f.nea == a.ea
    ensures (f.est.Some? <==> a.est.Some?) && (f.est.Some? ==> f.est.value * a.est.value == 1.0)
    ensures (f.lo.Some? <==> a.lo.Some?) && (f.lo.Some? ==> f.lo.value * a.lo.value == 1.0)
    ensures (f.hi.Some? <==> a.hi.Some?) && (f.hi.Some? ==> f.hi.value * a.hi.value == 1.0)
  {
    a.(ea := a.nea, nea := a.ea, est := Recip(a.est), lo := Recip(a.lo), hi := Recip(a.hi))
  }

  /** Swapping twice restores the original alleles, odds ratio and bound distances. */
  lemma {:induction false} FlipOddsInvolution(a: Aligned)
    requires NonZero(a)
    ensures FlipOdds(FlipOdds(a)) == a
  {
    var f := FlipOdds(a);
    if a.est.Some? { assert 1.0 / (1.0 / a.est.value) == a.est.value; }
    if a.lo.Some? { assert 1.0 / (1.0 / a.lo.value) == a.lo.value; }
    if a.hi.Some? { assert 1.0 / (1.0 / a.hi.value) == a.hi.value; }
  }

  /**
   * The bounds of both sources become their distances from the estimate
   * (`np.abs(OR_L - OR)`, `np.abs(OR_H - OR)`); nothing else changes.
   */
  function BoundDistances(r: Row): (d: Row)
    ensures d.first == r.first.(lo := AbsDiff(r.first.lo, r.first.est), hi := AbsDiff(r.first.hi, r.first.est))
    ensures d.second == r.second.(lo := AbsDiff(r.second.lo, r.second.est), hi := AbsDiff(r.second.hi, r.second.est))
    ensures d == r.(first := d.first, second := d.second)
  {
    r.(first := r.first.(lo := AbsDiff(r.first.lo, r.first.est), hi := AbsDiff(r.first.hi, r.first.est)),
       second := r.second.(lo := AbsDiff(r.second.lo, r.second.est), hi := AbsDiff(r.second.hi, r.second.est)))
  }

  /** Source 2's five columns copied into the aligned columns, as the first five writes of odds-ratio mode do. */
  function OddsCopy(r: Row): Aligned
  {
    Aligned(r.second.ea, r.second.nea, r.second.est, r.second.lo, r.second.hi)
  }

  /**
   * Odds-ratio alignment of one row: the bounds of both sources become
   * non-negative distances from their estimate; where the effect alleles agree
   * the aligned columns are source 2's alleles, odds ratio and distances
   * unchanged, otherwise the alleles are exchanged and the odds ratio and both
   * distances replaced by their reciprocals.
   */
  function AlignOddsRow(r: Row): (a: Row)
    requires OddsInvertible(r)
    ensures a.first == r.first.(lo := AbsDiff(r.first.lo, r.first.est), hi := AbsDiff(r.first.hi, r.first.est))
    ensures a.second == r.second.(lo := AbsDiff(r.second.lo, r.second.est), hi := AbsDiff(r.second.hi, r.second.est))
    ensures a == r.(first := a.first, second := a.second, aligned := a.aligned)
    ensures !Mismatch(r) ==> a.aligned == Aligned(r.second.ea, r.second.nea, r.second.est, a.second.lo, a.second.hi)
    ensures Mismatch(r) ==> a.aligned.ea == r.second.nea && a.aligned.nea == r.second.ea
    ensures Mismatch(r) ==> a.aligned.est == Recip(r.second.est)
    ensures Mismatch(r) ==> a.second.lo != Some(0.0) && a.aligned.lo == Recip(a.second.lo)
    ensures Mismatch(r) ==> a.second.hi != Some(0.0) && a.aligned.hi == Recip(a.second.hi)
    ensures r.first.ea.Some? && (r.second.ea == r.first.ea || r.second.nea == r.first.ea) ==>
              a.aligned.ea == r.first.ea
  {
    var d := BoundDistances(r);
    assert Mismatch(d) == Mismatch(r);
    var copy := OddsCopy(d);
    assert copy == Aligned(r.second.ea, r.second.nea, r.second.est, d.second.lo, d.second.hi);
    if Mismatch(d) then
      assert copy.lo != Some(0.0) by { assert BoundApart(r.second.lo, r.second.est); }
      assert copy.hi != Some(0.0) by { assert BoundApart(r.second.hi, r.second.est); }
      d.(aligned := FlipOdds(copy))
    else
      d.(aligned := copy)
  }

  /** Odds-ratio alignment of every row. */
  function AlignedOdds(t: Table): (r: Table)
    requires forall id :: id in t ==> OddsInvertible(t[id])
    ensures r.Keys == t.Keys
    ensures forall id :: id in r ==> r[id] == AlignOddsRow(t[id])
  {
    map id | id in t :: AlignOddsRow(t[id])
  }

  /**
   * A worked case: source 2 reports OR 2.0 with bounds 1.5 and 2.7 on the other
   * allele; the aligned OR is 0.5 and the aligned bounds are the reciprocals
   * of the distances 0.5 and 0.7.
   */
  lemma SwappedOddsExample(r: Row)
    requires r.first.ea == Some("A") && r.second.ea == Some("G") && r.second.nea == Some("A")
    requires r.second.est == Some(2.0) && r.second.lo == Some(1.5) && r.second.hi == Some(2.7)
    ensures OddsInvertible(r)
    ensures AlignOddsRow(r).aligned == Aligned(Some("A"), Some("G"), Some(0.5), Some(2.0), Some(1.0 / 0.7))
  {
  }
}
