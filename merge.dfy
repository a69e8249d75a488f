/**
 * The merged comparison table: the outer join of the two significant sets, the
 * left joins of each source's allele and effect columns, and the P backfill
 * (src/gwaslab/compare_effect.py, steps 13 to 17).
 */
module Merge {
  import opened Wrappers
  import opened Sources

  /** Which source a group of `_1` or `_2` columns belongs to. */
  datatype Study = First | Second

  /** The `_2_aligned` columns: source 2's alleles and effect expressed against source 1's effect allele. */
  datatype Aligned = Aligned(ea: Option<string>, nea: Option<string>,
                             est: Option<real>, lo: Option<real>, hi: Option<real>)

  const NotAligned: Aligned := Aligned(None, None, None, None, None)

  /**
   * One row of the merged table: the columns of source 1 and of source 2 (as a
   * Record each), the significance indicator, the merged CHR and POS, and the
   * aligned columns.
   */
  datatype Row = Row(first: Record, second: Record, indicator: int,
                     chr: Option<int>, pos: Option<int>, aligned: Aligned)
  {
    function Side(w: Study): Record
    {
      if w == First then first else second
    }

    function WithSide(w: Study, rec: Record): Row
    {
      if w == First then this.(first := rec) else this.(second := rec)
    }
  }

  /** The merged table, indexed by variant ID. */
  type Table = map<string, Row>

  /**
   * Outer join on SNPID: one row per variant in either significant set, with
   * that set's columns where the variant is in it and missing cells otherwise.
   */
  function OuterMerge(sig1: Sumstats, sig2: Sumstats): (m: Table)
    ensures m.Keys == sig1.Keys + sig2.Keys
    ensures forall id :: id in m && id in sig1 ==> m[id].first == sig1[id]
    ensures forall id :: id in m && id !in sig1 ==> m[id].first == Missing
    ensures forall id :: id in m && id in sig2 ==> m[id].second == sig2[id]
    ensures forall id :: id in m && id !in sig2 ==> m[id].second == Missing
    ensures forall id :: id in m ==> m[id].indicator == 0 && m[id].chr.None? && m[id].pos.None?
                                     && m[id].aligned == NotAligned
  {
    map id | id in sig1.Keys + sig2.Keys ::
      Row(if id in sig1 then sig1[id] else Missing,
          if id in sig2 then sig2[id] else Missing,
          0, None, None, NotAligned)
  }

  /** The allele and effect columns read from a file row: three effect columns in odds-ratio mode, two in beta mode. */
  function EffectColumns(r: Record, mode: Mode): (e: Record)
    ensures e.p.None? && e.chr.None? && e.pos.None?
    ensures e.ea == r.ea && e.nea == r.nea && e.est == r.est && e.lo == r.lo
    ensures mode == OddsRatio ==> e.hi == r.hi
    ensures mode == Beta ==> e.hi.None?
  {
    Missing.(ea := r.ea, nea := r.nea, est := r.est, lo := r.lo,
             hi := if mode == OddsRatio then r.hi else None)
  }

  /** A side of a merged row with its allele and effect cells taken from `e`; P, CHR and POS are kept. */
  function WithEffects(side: Record, e: Record): Record
  {
    side.(ea := e.ea, nea := e.nea, est := e.est, lo := e.lo, hi := e.hi)
  }

  /** The allele and effect cells of a side of a merged row are those of `e`. */
  predicate EffectsFrom(side: Record, e: Record)
  {
    side.ea == e.ea && side.nea == e.nea && side.est == e.est && side.lo == e.lo && side.hi == e.hi
  }

  /**
   * Left join of one source's allele and effect columns on SNPID: no row is
   * added or dropped; a variant missing from the file gets missing cells.
   */
  function LeftJoin(m: Table, s: Sumstats, w: Study, mode: Mode): (r: Table)
    ensures r.Keys == m.Keys
    ensures forall id :: id in r ==>
              var before, after := m[id].Side(w), r[id].Side(w);
              after.p == before.p && after.chr == before.chr && after.pos == before.pos
    ensures forall id :: id in r && id in s ==>
              var e := r[id].Side(w);
              e.ea == s[id].ea && e.nea == s[id].nea && e.est == s[id].est && e.lo == s[id].lo
              && e.hi == (if mode == OddsRatio then s[id].hi else None)
    ensures forall id :: id in r && id !in s ==>
              var e := r[id].Side(w);
              e.ea.None? && e.nea.None? && e.est.None? && e.lo.None? && e.hi.None?
    ensures forall id :: id in r ==> r[id] == m[id].WithSide(w, r[id].Side(w))
  {
    map id | id in m ::
      m[id].WithSide(w, WithEffects(m[id].Side(w), if id in s then EffectColumns(s[id], mode) else Missing))
  }

  /**
   * `update` of one source's P column from its full file: a cell is
   * overwritten only where the variant is in the file with a P value; no other
   * cell, and no row, changes.
   */
  function Backfilled(t: Table, full: Sumstats, w: Study): (r: Table)
    ensures r.Keys == t.Keys
    ensures forall id :: id in r && id in full && full[id].p.Some? ==> r[id].Side(w).p == full[id].p
    ensures forall id :: id in r && !(id in full && full[id].p.Some?) ==> r[id] == t[id]
    ensures forall id :: id in r ==> r[id] == t[id].WithSide(w, t[id].Side(w).(p := r[id].Side(w).p))
  {
    map id | id in t ::
      if id in full && full[id].p.Some? then t[id].WithSide(w, t[id].Side(w).(p := full[id].p)) else t[id]
  }
}
