/**
 * The merged table as the source mutates it: once indexed by SNPID, its P
 * columns are updated, the indicator column written, CHR and POS replaced and
 * the aligned columns written, all in place
 * (src/gwaslab/compare_effect.py, lines 192-252).
 */
module MergedTables {
  import opened Wrappers
  import opened Sources
  import opened Merge
  import opened Significance
  import opened Harmonize

  class MergedTable {
    /** The rows, indexed by SNPID. */
    var rows: Table

    /** `set_index("SNPID")` on the joined table. */
    constructor (merged: Table)
      ensures rows == merged
    {
      rows := merged;
    }

    /** `update` from one source's SNPID and P columns (lines 195-212). */
    method UpdateP(full: Sumstats, w: Study)
      modifies this
      ensures rows == Backfilled(old(rows), full, w)
    {
      rows := Backfilled(rows, full, w);
    }

    /**
     * The indicator column (lines 218-220): set to 0, then 1 added where
     * `P_1 < sig_level`, then 2 added where `P_2 < sig_level`.
     */
    method Classify(alpha: real)
      modifies this
      ensures rows == Classified(old(rows), alpha)
      ensures IndicatorsInRange(rows)
    {
      ghost var before := rows;
      rows := map id | id in rows :: rows[id].(indicator := 0);
      rows := map id | id in rows ::
        if Below(rows[id].first.p, alpha) then rows[id].(indicator := 1 + rows[id].indicator) else rows[id];
      rows := map id | id in rows ::
        if Below(rows[id].second.p, alpha) then rows[id].(indicator := 2 + rows[id].indicator) else rows[id];
      assert forall id :: id in rows ==> rows[id] == Classified(before, alpha)[id];
    }

    /**
     * CHR and POS (lines 222-224): the row-wise maximum of the two sources,
     * cast to integers, after which the per-source columns are dropped. The
     * cast fails, and nothing is written, when a row lacks both values.
     */
    method MergePositions() returns (ok: bool)
      modifies this
      ensures ok == PositionsCastable(old(rows))
      ensures ok ==> rows == MergedPositions(old(rows))
      ensures !ok ==> rows == old(rows)
    {
      ok := PositionsCastable(rows);
      if ok {
        ghost var before := rows;
        rows := map id | id in rows :: rows[id].(chr := MaxPresent(rows[id].first.chr, rows[id].second.chr));
        rows := map id | id in rows :: rows[id].(pos := MaxPresent(rows[id].first.pos, rows[id].second.pos));
        rows := map id | id in rows :: rows[id].(first := rows[id].first.(chr := None, pos := None),
                                                 second := rows[id].second.(chr := None, pos := None));
        assert forall id :: id in rows ==> rows[id] == MergedPositions(before)[id];
      }
    }

    /**
     * Beta-mode aligned columns (lines 228-234): copy source 2's EA, NEA and
     * effect, then on the rows where `EA_1 != EA_2` write NEA_2, EA_2 and
     * minus the effect instead.
     */
    method AlignBeta()
      modifies this
      ensures rows == AlignedBeta(old(rows))
    {
      ghost var before := rows;
      rows := map id | id in rows :: rows[id].(aligned := rows[id].aligned.(ea := rows[id].second.ea));
      rows := map id | id in rows :: rows[id].(aligned := rows[id].aligned.(nea := rows[id].second.nea));
      rows := map id | id in rows :: rows[id].(aligned := rows[id].aligned.(est := rows[id].second.est));
      assert rows.Keys == before.Keys;
      assert forall id :: id in rows ==> rows[id] == before[id].(aligned := BetaCopy(before[id]));
      ghost var copied := rows;
      rows := map id | id in rows ::
        if Mismatch(rows[id]) then rows[id].(aligned := rows[id].aligned.(ea := rows[id].second.nea)) else rows[id];
      rows := map id | id in rows ::
        if Mismatch(rows[id]) then rows[id].(aligned := rows[id].aligned.(nea := rows[id].second.ea)) else rows[id];
      rows := map id | id in rows ::
        if Mismatch(rows[id]) then rows[id].(aligned := rows[id].aligned.(est := Negate(rows[id].second.est)))
        else rows[id];
      assert rows.Keys == before.Keys;
      assert forall id :: id in rows ==>
        rows[id] == if Mismatch(copied[id]) then copied[id].(aligned := FlipBeta(copied[id].aligned)) else copied[id];
      assert forall id :: id in rows ==> rows[id] == AlignBetaRow(before[id]);
    }

    /**
     * Odds-ratio aligned columns (lines 237-252): the four bounds become
     * distances from their estimate, source 2's five columns are copied, and
     * on the rows where `EA_1 != EA_2` the alleles are exchanged and the odds
     * ratio and both distances inverted.
     */
    method AlignOdds()
      requires forall id :: id in rows ==> OddsInvertible(rows[id])
      modifies this
      ensures rows == AlignedOdds(old(rows))
    {
      ghost var before := rows;
      BoundsToDistances();
      CopyOdds();
      SwapLabels();
      InvertOdds();
      assert forall id :: id in rows ==> rows[id] == AlignOddsRow(before[id]);
    }

    /** Lines 237-240: `OR_L_k` and `OR_H_k` become `|OR_L_k - OR_k|` and `|OR_H_k - OR_k|`. */
    method BoundsToDistances()
      modifies this
      ensures rows.Keys == old(rows).Keys
      ensures forall id :: id in rows ==> rows[id] == BoundDistances(old(rows)[id])
    {
      rows := map id | id in rows :: rows[id].(first := rows[id].first.(lo := AbsDiff(rows[id].first.lo, rows[id].first.est)));
      rows := map id | id in rows :: rows[id].(first := rows[id].first.(hi := AbsDiff(rows[id].first.hi, rows[id].first.est)));
      rows := map id | id in rows :: rows[id].(second := rows[id].second.(lo := AbsDiff(rows[id].second.lo, rows[id].second.est)));
      rows := map id | id in rows :: rows[id].(second := rows[id].second.(hi := AbsDiff(rows[id].second.hi, rows[id].second.est)));
    }

    /** Lines 242-246: source 2's EA, NEA, OR and bound distances copied into the aligned columns. */
    method CopyOdds()
      modifies this
      ensures rows.Keys == old(rows).Keys
      ensures forall id :: id in rows ==> rows[id] == old(rows)[id].(aligned := OddsCopy(old(rows)[id]))
    {
      rows := map id | id in rows :: rows[id].(aligned := rows[id].aligned.(ea := rows[id].second.ea));
      rows := map id | id in rows :: rows[id].(aligned := rows[id].aligned.(nea := rows[id].second.nea));
      rows := map id | id in rows :: rows[id].(aligned := rows[id].aligned.(est := rows[id].second.est));
      rows := map id | id in rows :: rows[id].(aligned := rows[id].aligned.(lo := rows[id].second.lo));
      rows := map id | id in rows :: rows[id].(aligned := rows[id].aligned.(hi := rows[id].second.hi));
    }

    /** Lines 248-249 (and 232-233): on the rows where `EA_1 != EA_2`, the aligned EA is NEA_2 and the aligned NEA is EA_2. */
    method SwapLabels()
      modifies this
      ensures rows.Keys == old(rows).Keys
      ensures forall id :: id in rows ==>
        rows[id] == if Mismatch(old(rows)[id])
                    then old(rows)[id].(aligned := old(rows)[id].aligned.(ea := old(rows)[id].second.nea,
                                                                          nea := old(rows)[id].second.ea))
                    else old(rows)[id]
    {
      rows := map id | id in rows ::
        if Mismatch(rows[id]) then rows[id].(aligned := rows[id].aligned.(ea := rows[id].second.nea)) else rows[id];
      rows := map id | id in rows ::
        if Mismatch(rows[id]) then rows[id].(aligned := rows[id].aligned.(nea := rows[id].second.ea)) else rows[id];
    }

    /** Lines 250-252: on the rows where `EA_1 != EA_2`, the aligned OR and bound distances are the reciprocals of source 2's. */
    method InvertOdds()
      requires forall id :: id in rows && Mismatch(rows[id]) ==>
                 rows[id].second.est != Some(0.0) && rows[id].second.lo != Some(0.0) && rows[id].second.hi != Some(0.0)
      modifies this
      ensures rows.Keys == old(rows).Keys
      ensures forall id :: id in old(rows) ==>
        rows[id] == if Mismatch(old(rows)[id])
                    then old(rows)[id].(aligned := old(rows)[id].aligned.(est := Recip(old(rows)[id].second.est),
                                                                          lo := Recip(old(rows)[id].second.lo),
                                                                          hi := Recip(old(rows)[id].second.hi)))
                    else old(rows)[id]
    {
      ghost var before := rows;
      rows := map id | id in rows ::
        if Mismatch(rows[id]) then rows[id].(aligned := rows[id].aligned.(est := Recip(rows[id].second.est)))
        else rows[id];
      assert forall id :: id in rows ==> rows[id] == before[id].(aligned := rows[id].aligned);
      rows := map id | id in rows ::
        if Mismatch(rows[id]) then rows[id].(aligned := rows[id].aligned.(lo := Recip(rows[id].second.lo)))
        else rows[id];
      assert forall id :: id in rows ==> rows[id] == before[id].(aligned := rows[id].aligned);
      rows := map id | id in rows ::
        if Mismatch(rows[id]) then rows[id].(aligned := rows[id].aligned.(hi := Recip(rows[id].second.hi)))
        else rows[id];
    }
  }
}
