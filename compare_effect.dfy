/**
 * The data path of `compare_effect` (src/gwaslab/compare_effect.py:11-399)
 * without its file reads, file write and plotting: the whole run as a function
 * of the two sources, and as the sequence of steps the source performs.
 */
module Reconciliation {
  import opened Wrappers
  import opened Sources
  import opened Merge
  import opened Significance
  import opened Harmonize
  import opened MergedTables

  /**
   * The errors the run raises: an unknown mode string; a lead-variant pick
   * for source 2 over a table without CHR and POS columns (an empty list);
   * and a CHR or POS that cannot be cast to an integer.
   */
  datatype Error = InvalidMode | MissingPositionColumns | NonFinitePosition

  /**
   * The results of a run: the merged table (the one written to the output
   * file and returned), the four indicator classes with incomplete rows
   * dropped (the sets that are counted and drawn), and the degrees of freedom
   * of the slope test.
   */
  datatype Comparison = Comparison(merged: Table, sum0: Table, sum1only: Table, sum2only: Table,
                                   both: Table, degree: int)

  /** The partition of the finished table and the degrees of freedom (lines 259-262 and 362). */
  function Summarize(t: Table, mode: Mode, withPos: bool): (c: Comparison)
    ensures c.merged == t
    ensures forall id :: id in c.sum0 <==> id in t && t[id].indicator == 0 && Complete(t[id], mode, withPos)
    ensures forall id :: id in c.sum1only <==> id in t && t[id].indicator == 1 && Complete(t[id], mode, withPos)
    ensures forall id :: id in c.sum2only <==> id in t && t[id].indicator == 2 && Complete(t[id], mode, withPos)
    ensures forall id :: id in c.both <==> id in t && t[id].indicator == 3 && Complete(t[id], mode, withPos)
    ensures c.degree + 2 == |Dropna(t, mode, withPos)|
  {
    Comparison(t,
               Dropna(WithIndicator(t, 0), mode, withPos), Dropna(WithIndicator(t, 1), mode, withPos),
               Dropna(WithIndicator(t, 2), mode, withPos), Dropna(WithIndicator(t, 3), mode, withPos),
               DegreesOfFreedom(t, mode, withPos))
  }

  /**
   * Steps 2 to 15: the significant sets, their outer join and the left joins of
   * both sources' allele and effect columns read from the full files.
   */
  function Joined(mode: Mode, s1: Sumstats, s2: Sumstats, snplist: Option<seq<string>>,
                  sigLevel: real, getsig: Picker): (m: Table)
    ensures var sigs := SignificantSets(s1, s2, snplist, sigLevel, getsig);
            m.Keys == sigs.0.Keys + sigs.1.Keys
    ensures m.Keys <= CommonIds(s1, s2)
  {
    var sigs := SignificantSets(s1, s2, snplist, sigLevel, getsig);
    LeftJoin(LeftJoin(OuterMerge(sigs.0, sigs.1), s1, First, mode), s2, Second, mode)
  }

  /**
   * Every joined row is a common variant, so both left joins find it: its
   * allele and effect cells are the files', its P cells are either missing or
   * the files', and nothing has been classified or aligned yet.
   */
  lemma {:induction false} JoinedRows(mode: Mode, s1: Sumstats, s2: Sumstats, snplist: Option<seq<string>>,
                                      sigLevel: real, getsig: Picker)
    ensures var m := Joined(mode, s1, s2, snplist, sigLevel, getsig);
            forall id :: id in m ==>
              && id in s1 && id in s2
              && EffectsFrom(m[id].first, EffectColumns(s1[id], mode))
              && EffectsFrom(m[id].second, EffectColumns(s2[id], mode))
              && (m[id].first.p.Some? ==> m[id].first.p == s1[id].p)
              && (m[id].second.p.Some? ==> m[id].second.p == s2[id].p)
              && m[id].indicator == 0 && m[id].aligned == NotAligned
  {
    var sigs := SignificantSets(s1, s2, snplist, sigLevel, getsig);
    var m := Joined(mode, s1, s2, snplist, sigLevel, getsig);
    forall id | id in m
      ensures id in s1 && id in s2
      ensures EffectsFrom(m[id].first, EffectColumns(s1[id], mode))
      ensures EffectsFrom(m[id].second, EffectColumns(s2[id], mode))
      ensures m[id].first.p.Some? ==> m[id].first.p == s1[id].p
      ensures m[id].second.p.Some? ==> m[id].second.p == s2[id].p
      ensures m[id].indicator == 0 && m[id].aligned == NotAligned
    {
      assert id in CommonIds(s1, s2);
      JoinedAt(sigs.0, sigs.1, s1, s2, mode, id);
    }
  }

  /**
   * The outer join and both left joins at one variant of both files, where
   * each significant set carries the file's P: the allele and effect cells are
   * the files', a P cell is missing or the file's, and nothing is classified
   * or aligned.
   */
  lemma JoinedAt(sig1: Sumstats, sig2: Sumstats, s1: Sumstats, s2: Sumstats, mode: Mode, id: string)
    requires (id in sig1 || id in sig2) && id in s1 && id in s2
    requires id in sig1 ==> sig1[id].p == s1[id].p
    requires id in sig2 ==> sig2[id].p == s2[id].p
    ensures var m := LeftJoin(LeftJoin(OuterMerge(sig1, sig2), s1, First, mode), s2, Second, mode);
            && id in m
            && EffectsFrom(m[id].first, EffectColumns(s1[id], mode))
            && EffectsFrom(m[id].second, EffectColumns(s2[id], mode))
            && (m[id].first.p.Some? ==> m[id].first.p == s1[id].p)
            && (m[id].second.p.Some? ==> m[id].second.p == s2[id].p)
            && m[id].indicator == 0 && m[id].aligned == NotAligned
  {
    var outer := OuterMerge(sig1, sig2);
    var left := LeftJoin(outer, s1, First, mode);
    var right := LeftJoin(left, s2, Second, mode);
    assert left[id] == outer[id].WithSide(First, left[id].Side(First));
    assert right[id] == left[id].WithSide(Second, right[id].Side(Second));
  }

  /**
   * The odds-ratio cells of source 2 that a swap inverts are non-zero for every
   * variant of either significant set whose effect alleles disagree: the rows
   * of the merged table, the only ones the swap touches.
   */
  predicate OddsReady(s1: Sumstats, s2: Sumstats, snplist: Option<seq<string>>, sigLevel: real, getsig: Picker)
  {
    var sigs := SignificantSets(s1, s2, snplist, sigLevel, getsig);
    forall id :: (id in sigs.0 || id in sigs.1) && id in s1 && id in s2 && !SameAllele(s1[id].ea, s2[id].ea) ==>
      s2[id].est != Some(0.0) && BoundApart(s2[id].lo, s2[id].est) && BoundApart(s2[id].hi, s2[id].est)
  }

  /** The table after the P backfill and the indicator (steps 16 to 18). */
  function Scored(mode: Mode, s1: Sumstats, s2: Sumstats, snplist: Option<seq<string>>,
                  sigLevel: real, getsig: Picker): (t: Table)
    ensures t.Keys == Joined(mode, s1, s2, snplist, sigLevel, getsig).Keys
  {
    Classified(Backfilled(Backfilled(Joined(mode, s1, s2, snplist, sigLevel, getsig), s1, First), s2, Second),
               sigLevel)
  }

  /**
   * After the backfill every row holds exactly the P values of the two files,
   * including the variants that were significant in one source only, so its
   * indicator is that of the files' P values; its allele and effect cells are
   * the files' and nothing is aligned yet.
   */
  lemma {:induction false} ScoredRows(mode: Mode, s1: Sumstats, s2: Sumstats, snplist: Option<seq<string>>,
                                      sigLevel: real, getsig: Picker)
    ensures var t := Scored(mode, s1, s2, snplist, sigLevel, getsig);
            forall id :: id in t ==>
              && id in s1 && id in s2
              && t[id].first.p == s1[id].p && t[id].second.p == s2[id].p
              && t[id].indicator == Indicator(s1[id].p, s2[id].p, sigLevel)
              && EffectsFrom(t[id].first, EffectColumns(s1[id], mode))
              && EffectsFrom(t[id].second, EffectColumns(s2[id], mode))
              && t[id].aligned == NotAligned
  {
    var t := Scored(mode, s1, s2, snplist, sigLevel, getsig);
    forall id | id in t
      ensures id in s1 && id in s2
      ensures t[id].first.p == s1[id].p && t[id].second.p == s2[id].p
      ensures t[id].indicator == Indicator(s1[id].p, s2[id].p, sigLevel)
      ensures EffectsFrom(t[id].first, EffectColumns(s1[id], mode))
      ensures EffectsFrom(t[id].second, EffectColumns(s2[id], mode))
      ensures t[id].aligned == NotAligned
    {
      ScoredRow(mode, s1, s2, snplist, sigLevel, getsig, id);
    }
  }

  /** `ScoredRows` for one variant. */
  lemma {:induction false} ScoredRow(mode: Mode, s1: Sumstats, s2: Sumstats, snplist: Option<seq<string>>,
                                     sigLevel: real, getsig: Picker, id: string)
    requires id in Scored(mode, s1, s2, snplist, sigLevel, getsig)
    ensures var t := Scored(mode, s1, s2, snplist, sigLevel, getsig);
            && id in s1 && id in s2
            && t[id].first.p == s1[id].p && t[id].second.p == s2[id].p
            && t[id].indicator == Indicator(s1[id].p, s2[id].p, sigLevel)
            && EffectsFrom(t[id].first, EffectColumns(s1[id], mode))
            && EffectsFrom(t[id].second, EffectColumns(s2[id], mode))
            && t[id].aligned == NotAligned
  {
    var m := Joined(mode, s1, s2, snplist, sigLevel, getsig);
    JoinedRows(mode, s1, s2, snplist, sigLevel, getsig);
    assert id in m && id in s1 && id in s2;
    ScoredAt(m, s1, s2, sigLevel, id);
  }

  /**
   * The backfill and the indicator at one variant of both files whose P cells
   * are missing or already the files': afterwards they are the files', the
   * indicator is the one they give, and nothing else changes.
   */
  lemma ScoredAt(m: Table, s1: Sumstats, s2: Sumstats, sigLevel: real, id: string)
    requires id in m && id in s1 && id in s2
    requires m[id].first.p.Some? ==> m[id].first.p == s1[id].p
    requires m[id].second.p.Some? ==> m[id].second.p == s2[id].p
    ensures var t := Classified(Backfilled(Backfilled(m, s1, First), s2, Second), sigLevel);
            && id in t
            && t[id] == m[id].(first := m[id].first.(p := s1[id].p), second := m[id].second.(p := s2[id].p),
                               indicator := Indicator(s1[id].p, s2[id].p, sigLevel))
  {
    var b1 := Backfilled(m, s1, First);
    BackfilledRow(m, s1, First, id);
    assert b1[id].second == m[id].second;
    BackfilledRow(b1, s2, Second, id);
  }

  /**
   * The backfill at one variant whose P cell is missing or already the
   * file's: afterwards it is the file's.
   */
  lemma BackfilledRow(t: Table, full: Sumstats, w: Study, id: string)
    requires id in t && id in full
    requires t[id].Side(w).p.Some? ==> t[id].Side(w).p == full[id].p
    ensures id in Backfilled(t, full, w)
    ensures Backfilled(t, full, w)[id] == t[id].WithSide(w, t[id].Side(w).(p := full[id].p))
  {
    if full[id].p.None? {
      assert t[id].Side(w) == t[id].Side(w).(p := full[id].p);
    }
  }

  /**
   * A whole run. An unknown mode is rejected before anything else; an empty
   * list sends source 2 to the lead-variant pick without CHR and POS columns,
   * which fails; with no list given, a row without CHR or without POS in both
   * sources makes the integer cast fail; otherwise the finished, aligned table
   * is partitioned.
   */
  function Reconcile(modeName: string, s1: Sumstats, s2: Sumstats, snplist: Option<seq<string>>,
                     sigLevel: real, getsig: Picker): (res: Result<Comparison, Error>)
    requires ParseMode(modeName) == Some(OddsRatio) ==> OddsReady(s1, s2, snplist, sigLevel, getsig)
    ensures res == Failure(InvalidMode) <==> ParseMode(modeName).None?
    ensures res == Failure(MissingPositionColumns) <==> ParseMode(modeName).Some? && snplist == Some([])
    ensures res == Failure(NonFinitePosition) <==>
              && ParseMode(modeName).Some? && snplist.None?
              && !PositionsCastable(Scored(ParseMode(modeName).value, s1, s2, snplist, sigLevel, getsig))
  {
    match ParseMode(modeName)
    case None => Failure(InvalidMode)
    case Some(mode) =>
      if snplist == Some([]) then Failure(MissingPositionColumns)
      else
        var withPos := snplist.None?;
        var t := Scored(mode, s1, s2, snplist, sigLevel, getsig);
        if withPos && !PositionsCastable(t) then Failure(NonFinitePosition)
        else
          var placed := if withPos then MergedPositions(t) else t;
          if mode == Beta then Success(Summarize(AlignedBeta(placed), mode, withPos))
          else
            ReadyToInvert(mode, s1, s2, snplist, sigLevel, getsig);
            Success(Summarize(AlignedOdds(placed), mode, withPos))
  }

  /** The odds-ratio swap can invert every cell it touches, with or without the position merge. */
  lemma ReadyToInvert(mode: Mode, s1: Sumstats, s2: Sumstats, snplist: Option<seq<string>>,
                      sigLevel: real, getsig: Picker)
    requires mode == OddsRatio && OddsReady(s1, s2, snplist, sigLevel, getsig)
    ensures var t := Scored(mode, s1, s2, snplist, sigLevel, getsig);
            && (forall id :: id in t ==> OddsInvertible(t[id]))
            && (PositionsCastable(t) ==> forall id :: id in MergedPositions(t) ==> OddsInvertible(MergedPositions(t)[id]))
  {
    var t := Scored(mode, s1, s2, snplist, sigLevel, getsig);
    var sigs := SignificantSets(s1, s2, snplist, sigLevel, getsig);
    ScoredRows(mode, s1, s2, snplist, sigLevel, getsig);
    forall id | id in t ensures OddsInvertible(t[id]) {
      assert id in sigs.0 || id in sigs.1;
      assert t[id].first.ea == s1[id].ea && t[id].second.ea == s2[id].ea;
    }
  }

  /**
   * A common variant outside both significant sets is never swapped, so its
   * cells need not be invertible: rs9 has mismatched alleles and OR_L equal to
   * OR in source 2, yet a run over the list ["rs1"] succeeds with an empty table.
   */
  lemma UnselectedVariantNotInverted(getsig: Picker)
    ensures var s1 := map["rs9" := Record(Some(0.5), None, None, Some("A"), Some("G"), Some(1.0), Some(1.0), Some(1.2))];
            var s2 := map["rs9" := Record(Some(0.5), None, None, Some("G"), Some("A"), Some(1.0), Some(1.0), Some(1.2))];
            && OddsReady(s1, s2, Some(["rs1"]), 0.00000005, getsig)
            && Reconcile("OR", s1, s2, Some(["rs1"]), 0.00000005, getsig).Success?
            && Reconcile("OR", s1, s2, Some(["rs1"]), 0.00000005, getsig).value.merged == map[]
  {
    var s1 := map["rs9" := Record(Some(0.5), None, None, Some("A"), Some("G"), Some(1.0), Some(1.0), Some(1.2))];
    var s2 := map["rs9" := Record(Some(0.5), None, None, Some("G"), Some("A"), Some(1.0), Some(1.0), Some(1.2))];
    var sigs := SignificantSets(s1, s2, Some(["rs1"]), 0.00000005, getsig);
    assert "rs1" !in CommonIds(s1, s2);
    assert sigs.0 == map[] && sigs.1 == map[];
  }

  /**
   * What a successful run returns: one row per variant of either significant
   * set, all of them common variants; each row carries both files' P values
   * and the indicator they give; a row whose source-2 alleles hold source 1's
   * effect allele is aligned to it; and with no list given every row has its
   * merged CHR and POS.
   */
  lemma {:induction false} ReconciledTable(modeName: string, s1: Sumstats, s2: Sumstats,
                                           snplist: Option<seq<string>>, sigLevel: real, getsig: Picker)
    requires ParseMode(modeName) == Some(OddsRatio) ==> OddsReady(s1, s2, snplist, sigLevel, getsig)
    requires Reconcile(modeName, s1, s2, snplist, sigLevel, getsig).Success?
    ensures var c := Reconcile(modeName, s1, s2, snplist, sigLevel, getsig).value;
            var sigs := SignificantSets(s1, s2, snplist, sigLevel, getsig);
            && c.merged.Keys == sigs.0.Keys + sigs.1.Keys
            && c.merged.Keys <= CommonIds(s1, s2)
            && forall id :: id in c.merged ==>
                 && id in s1 && id in s2
                 && c.merged[id].first.p == s1[id].p && c.merged[id].second.p == s2[id].p
                 && c.merged[id].indicator == Indicator(s1[id].p, s2[id].p, sigLevel)
                 && (s1[id].ea.Some? && (s2[id].ea == s1[id].ea || s2[id].nea == s1[id].ea) ==>
                       c.merged[id].aligned.ea == s1[id].ea)
                 && (snplist.None? ==> c.merged[id].chr.Some? && c.merged[id].pos.Some?)
  {
    var mode := ParseMode(modeName).value;
    var withPos := snplist.None?;
    var t := Scored(mode, s1, s2, snplist, sigLevel, getsig);
    ScoredRows(mode, s1, s2, snplist, sigLevel, getsig);
    var placed := if withPos then MergedPositions(t) else t;
    assert placed.Keys == t.Keys;
    var c := Reconcile(modeName, s1, s2, snplist, sigLevel, getsig).value;
    if mode == Beta {
      assert c == Summarize(AlignedBeta(placed), mode, withPos);
    } else {
      ReadyToInvert(mode, s1, s2, snplist, sigLevel, getsig);
      assert c == Summarize(AlignedOdds(placed), mode, withPos);
    }
    forall id | id in c.merged
      ensures id in s1 && id in s2
      ensures c.merged[id].first.p == s1[id].p && c.merged[id].second.p == s2[id].p
      ensures c.merged[id].indicator == Indicator(s1[id].p, s2[id].p, sigLevel)
      ensures s1[id].ea.Some? && (s2[id].ea == s1[id].ea || s2[id].nea == s1[id].ea) ==>
                c.merged[id].aligned.ea == s1[id].ea
      ensures withPos ==> c.merged[id].chr.Some? && c.merged[id].pos.Some?
    {
      var row := placed[id];
      assert row.first.p == t[id].first.p && row.second.p == t[id].second.p;
      assert row.first.ea == t[id].first.ea && row.second.ea == t[id].second.ea && row.second.nea == t[id].second.nea;
      assert row.indicator == t[id].indicator;
      assert withPos ==> row.chr.Some? && row.pos.Some?;
      assert EffectsFrom(t[id].first, EffectColumns(s1[id], mode));
      assert EffectsFrom(t[id].second, EffectColumns(s2[id], mode));
      if mode == Beta {
        assert c.merged[id] == AlignBetaRow(row);
      } else {
        assert c.merged[id] == AlignOddsRow(row);
      }
    }
  }

  /**
   * The partition of a classified table: each counted class is its indicator
   * class with the incomplete rows dropped, the undropped classes partition
   * the table, and the sizes of the four dropped classes add up to the
   * degrees of freedom plus 2.
   */
  lemma {:induction false} SummaryPartition(t: Table, mode: Mode, withPos: bool)
    requires IndicatorsInRange(t)
    ensures var c := Summarize(t, mode, withPos);
            && c.sum0 == WithIndicator(Dropna(t, mode, withPos), 0)
            && c.sum1only == WithIndicator(Dropna(t, mode, withPos), 1)
            && c.sum2only == WithIndicator(Dropna(t, mode, withPos), 2)
            && c.both == WithIndicator(Dropna(t, mode, withPos), 3)
            && |WithIndicator(t, 0)| + |WithIndicator(t, 1)| + |WithIndicator(t, 2)| + |WithIndicator(t, 3)| == |t|
            && |c.sum0| + |c.sum1only| + |c.sum2only| + |c.both| == c.degree + 2
  {
    IndicatorClassesPartition(t);
    DroppedClassesCount(t, mode, withPos);
  }

  /** The classes of a successful run, as `SummaryPartition` describes them, over its merged table. */
  lemma {:induction false} ReconciledClasses(modeName: string, s1: Sumstats, s2: Sumstats,
                                             snplist: Option<seq<string>>, sigLevel: real, getsig: Picker)
    requires ParseMode(modeName) == Some(OddsRatio) ==> OddsReady(s1, s2, snplist, sigLevel, getsig)
    requires Reconcile(modeName, s1, s2, snplist, sigLevel, getsig).Success?
    ensures var c := Reconcile(modeName, s1, s2, snplist, sigLevel, getsig).value;
            && IndicatorsInRange(c.merged)
            && c == Summarize(c.merged, ParseMode(modeName).value, snplist.None?)
  {
    var c := Reconcile(modeName, s1, s2, snplist, sigLevel, getsig).value;
    var mode, withPos := ParseMode(modeName).value, snplist.None?;
    var t := Scored(mode, s1, s2, snplist, sigLevel, getsig);
    var placed := if withPos then MergedPositions(t) else t;
    if mode == Beta {
      assert c == Summarize(AlignedBeta(placed), mode, withPos);
    } else {
      ReadyToInvert(mode, s1, s2, snplist, sigLevel, getsig);
      assert c == Summarize(AlignedOdds(placed), mode, withPos);
    }
    ReconciledTable(modeName, s1, s2, snplist, sigLevel, getsig);
    forall id | id in c.merged ensures 0 <= c.merged[id].indicator <= 3 {
      assert c.merged[id].indicator == Indicator(s1[id].p, s2[id].p, sigLevel);
    }
  }

  /**
   * Steps 13 to 18 as the source performs them: the joined table is indexed,
   * both P columns are updated from the files and the indicator is written.
   */
  method ScoredTable(mode: Mode, s1: Sumstats, s2: Sumstats, snplist: Option<seq<string>>,
                     sigLevel: real, getsig: Picker) returns (table: MergedTable)
    ensures fresh(table)
    ensures table.rows == Scored(mode, s1, s2, snplist, sigLevel, getsig)
  {
    table := new MergedTable(Joined(mode, s1, s2, snplist, sigLevel, getsig));
    table.UpdateP(s1, First);
    table.UpdateP(s2, Second);
    table.Classify(sigLevel);
  }

  /**
   * The run as the source performs it: the joins build a new table, which is
   * then indexed, updated, classified, given its merged CHR and POS and
   * aligned in place.
   */
  method CompareEffect(modeName: string, s1: Sumstats, s2: Sumstats, snplist: Option<seq<string>>,
                       sigLevel: real, getsig: Picker) returns (res: Result<Comparison, Error>)
    requires ParseMode(modeName) == Some(OddsRatio) ==> OddsReady(s1, s2, snplist, sigLevel, getsig)
    ensures res == Reconcile(modeName, s1, s2, snplist, sigLevel, getsig)
  {
    var mode := ParseMode(modeName);
    if mode.None? {
      return Failure(InvalidMode);
    }
    if snplist == Some([]) {
      return Failure(MissingPositionColumns);
    }
    var withPos := snplist.None?;
    var table := ScoredTable(mode.value, s1, s2, snplist, sigLevel, getsig);
    ghost var scored := Scored(mode.value, s1, s2, snplist, sigLevel, getsig);
    if withPos {
      var ok := table.MergePositions();
      if !ok {
        return Failure(NonFinitePosition);
      }
    }
    ghost var placed := if withPos then MergedPositions(scored) else scored;
    assert table.rows == placed;
    if mode.value == Beta {
      table.AlignBeta();
      assert table.rows == AlignedBeta(placed);
    } else {
      ReadyToInvert(mode.value, s1, s2, snplist, sigLevel, getsig);
      table.AlignOdds();
      assert table.rows == AlignedOdds(placed);
    }
    res := Success(Summarize(table.rows, mode.value, withPos));
  }
}
