/**
 * The two summary-statistics sources of a comparison, the common variant set,
 * and the selection of each source's significant (or listed) variants
 * (src/gwaslab/compare_effect.py, steps 1 to 12).
 */
module Sources {
  import opened Wrappers

  /** The comparison mode: additive effect sizes, or odds ratios with bounds. */
  datatype Mode = Beta | OddsRatio

  /**
   * Checks the mode string (it must be one of the five accepted spellings) and
   * reads it as the effect-column steps do: the three spellings of "beta" select
   * the additive mode, every other accepted spelling the odds-ratio mode.
   */
  function ParseMode(name: string): (m: Option<Mode>)
    ensures m.None? <==> name != "Beta" && name != "beta" && name != "BETA" && name != "OR" && name != "or"
    ensures m == Some(Beta) <==> name == "Beta" || name == "beta" || name == "BETA"
    ensures m == Some(OddsRatio) <==> name == "OR" || name == "or"
  {
    if name !in ["Beta", "beta", "BETA", "OR", "or"] then None
    else if name == "beta" || name == "BETA" || name == "Beta" then Some(Beta)
    else Some(OddsRatio)
  }

  /**
   * One row of a summary-statistics file. The columns are those the caller names
   * in its column lists: P, CHR, POS, EA and NEA, then the effect columns in order
   * (est, lo, hi), which hold EFFECT and SE in beta mode and OR, OR_L and OR_H in
   * odds-ratio mode. A missing cell is None.
   */
  datatype Record = Record(p: Option<real>, chr: Option<int>, pos: Option<int>,
                           ea: Option<string>, nea: Option<string>,
                           est: Option<real>, lo: Option<real>, hi: Option<real>)

  /** A row with every cell missing; also the row of a column set that was not loaded. */
  const Missing: Record := Record(None, None, None, None, None, None, None, None)

  /** A summary-statistics file, keyed by variant ID (SNPID). */
  type Sumstats = map<string, Record>

  /** The variants present in both sources. */
  function CommonIds(s1: Sumstats, s2: Sumstats): (common: set<string>)
    ensures forall id :: id in common <==> id in s1 && id in s2
  {
    s2.Keys * s1.Keys
  }

  /** Boolean row selection by ID membership (`isin`). */
  function KeepIds(t: Sumstats, ids: set<string>): (r: Sumstats)
    ensures r.Keys == t.Keys * ids
    ensures forall id :: id in r ==> r[id] == t[id]
  {
    map id | id in t && id in ids :: t[id]
  }

  /**
   * The columns read for variant selection: SNPID and P, plus CHR and POS when
   * no list of variants is given; the other columns are not loaded.
   */
  function LeadColumns(s: Sumstats, withPos: bool): (t: Sumstats)
    ensures t.Keys == s.Keys
    ensures forall id :: id in t ==> t[id].p == s[id].p
    ensures forall id :: id in t && withPos ==> t[id].chr == s[id].chr && t[id].pos == s[id].pos
  {
    map id | id in s :: Missing.(p := s[id].p,
                                 chr := if withPos then s[id].chr else None,
                                 pos := if withPos then s[id].pos else None)
  }

  /**
   * The external lead-variant picker (`getsig`): given a table of ID, CHR, POS
   * and P and a significance level, it names the variants it keeps. Its
   * clumping is not part of this model; only the rows it names and the input
   * holds are kept, unchanged.
   */
  type Picker = (Sumstats, real) -> set<string>

  /** The Python truth value of the optional variant list: absent and empty are both false. */
  predicate Truthy(snplist: Option<seq<string>>)
    ensures Truthy(snplist) <==> snplist != None && snplist != Some([])
  {
    snplist.Some? && |snplist.value| > 0
  }

  /** The list's entries, or none when no list is given. */
  function Listed(snplist: Option<seq<string>>): set<string>
  {
    if snplist.Some? then set id | id in snplist.value else {}
  }

  /**
   * A source's significant set: its rows named in the list when `useList`,
   * otherwise the rows the picker keeps.
   */
  function SelectSig(t: Sumstats, useList: bool, snplist: Option<seq<string>>,
                     sigLevel: real, getsig: Picker): (sig: Sumstats)
    ensures sig.Keys <= t.Keys
    ensures forall id :: id in sig ==> sig[id] == t[id]
    ensures useList ==> forall id :: id in sig <==> id in t && id in Listed(snplist)
    ensures !useList ==> sig.Keys == t.Keys * getsig(t, sigLevel)
  {
    if useList then KeepIds(t, Listed(snplist)) else KeepIds(t, getsig(t, sigLevel))
  }

  /**
   * Both significant sets. Each source is first cut down to the common variants;
   * source 1 uses the list whenever one is given, source 2 only when it is
   * non-empty.
   */
  function SignificantSets(s1: Sumstats, s2: Sumstats, snplist: Option<seq<string>>,
                           sigLevel: real, getsig: Picker): (sigs: (Sumstats, Sumstats))
    ensures sigs.0.Keys <= CommonIds(s1, s2) && sigs.1.Keys <= CommonIds(s1, s2)
    ensures forall id :: id in sigs.0 ==> sigs.0[id].p == s1[id].p
    ensures forall id :: id in sigs.1 ==> sigs.1[id].p == s2[id].p
    ensures snplist.Some? ==> forall id :: id in sigs.0 <==> id in CommonIds(s1, s2) && id in snplist.value
    ensures Truthy(snplist) ==> forall id :: id in sigs.1 <==> id in CommonIds(s1, s2) && id in snplist.value
    ensures snplist.None? ==>
              sigs.0.Keys == CommonIds(s1, s2) * getsig(KeepIds(LeadColumns(s1, true), CommonIds(s1, s2)), sigLevel)
    ensures !Truthy(snplist) ==>
              sigs.1.Keys == CommonIds(s1, s2) * getsig(KeepIds(LeadColumns(s2, snplist.None?), CommonIds(s1, s2)), sigLevel)
    ensures snplist.None? ==> forall id :: id in sigs.0 ==> sigs.0[id].chr == s1[id].chr && sigs.0[id].pos == s1[id].pos
    ensures snplist.None? ==> forall id :: id in sigs.1 ==> sigs.1[id].chr == s2[id].chr && sigs.1[id].pos == s2[id].pos
  {
    var common := CommonIds(s1, s2);
    var withPos := snplist.None?;
    var t1 := KeepIds(LeadColumns(s1, withPos), common);
    var t2 := KeepIds(LeadColumns(s2, withPos), common);
    (SelectSig(t1, snplist.Some?, snplist, sigLevel, getsig),
     SelectSig(t2, Truthy(snplist), snplist, sigLevel, getsig))
  }

  /**
   * An empty list is "given" for source 1 but false for source 2: source 1's
   * significant set is empty, while source 2 falls back to the picker and
   * hands it a table whose CHR and POS columns were never loaded.
   */
  lemma EmptyListQuirk(s1: Sumstats, s2: Sumstats, sigLevel: real, getsig: Picker)
    ensures SignificantSets(s1, s2, Some([]), sigLevel, getsig).0 == map[]
    ensures !Truthy(Some([]))
    ensures var t2 := KeepIds(LeadColumns(s2, false), CommonIds(s1, s2));
            forall id :: id in t2 ==> t2[id].chr.None? && t2[id].pos.None?
  {
    var sigs := SignificantSets(s1, s2, Some([]), sigLevel, getsig);
    assert Listed(Some([])) == {};
    assert sigs.0.Keys == {};
  }
}
