/** The state of the matching task: its efficiency tables, filled once per
    event by UserExec and cleaned up by UserFinish
    (pid_matching/PidMatching.cpp).

    Every histogram is a table of integer cells. The per-species tables are
    two-dimensional arrays indexed [species slot, cell] (the slot of a
    species is given by Slot; row s holds the table of Species[s]); a
    ratio table (passed over total) is a pair of such arrays. The
    charged-hadron tables and the multiplicity histograms are
    one-dimensional. The tables are grouped by the loop of UserExec that
    fills them. */
module PidMatchingState {
  import opened Matching
  import opened EfficiencyCounts
  import opened PidMatchingTask
  import opened RunTotals

  // ---------------------------------------------------------------------
  // TH2/TH3 and TEfficiency fills on one cell of a per-species table

  /** No cell of the table is negative. */
  ghost predicate NonNegative(h: array2<int>)
    reads h
  {
    forall s, c :: 0 <= s < h.Length0 && 0 <= c < h.Length1 ==> 0 <= h[s, c]
  }

  /** The passed and total tables of a TEfficiency agree in shape and
      0 <= passed <= total in every cell. */
  ghost predicate Ordered(passed: array2<int>, total: array2<int>)
    reads passed, total
  {
    passed.Length0 == total.Length0 && passed.Length1 == total.Length1 &&
    forall s, c :: 0 <= s < total.Length0 && 0 <= c < total.Length1 ==> 0 <= passed[s, c] <= total[s, c]
  }

  /** A histogram fill: cell (s, c) gains one entry, no other cell changes. */
  method FillCell(h: array2<int>, s: nat, c: nat)
    requires s < h.Length0 && c < h.Length1
    modifies h
    ensures forall s', c' :: 0 <= s' < h.Length0 && 0 <= c' < h.Length1 ==>
      h[s', c'] == old(h[s', c']) + (if s' == s && c' == c then 1 else 0)
  {
    h[s, c] := h[s, c] + 1;
  }

  /** TEfficiency::Fill(passed, ...): the total of cell (s, c) gains one
      entry, and its passed count too when isPassed. */
  method FillEfficiencyCell(passed: array2<int>, total: array2<int>, s: nat, c: nat, isPassed: bool)
    requires passed != total
    requires s < total.Length0 && c < total.Length1
    requires passed.Length0 == total.Length0 && passed.Length1 == total.Length1
    modifies passed, total
    ensures forall s', c' :: 0 <= s' < total.Length0 && 0 <= c' < total.Length1 ==>
      total[s', c'] == old(total[s', c']) + (if s' == s && c' == c then 1 else 0) &&
      passed[s', c'] == old(passed[s', c']) + (if s' == s && c' == c && isPassed then 1 else 0)
  {
    total[s, c] := total[s, c] + 1;
    if isPassed {
      passed[s, c] := passed[s, c] + 1;
    }
  }

  /** The same on a one-dimensional table of cells. */
  method FillEfficiencyBin(passed: array<int>, total: array<int>, c: nat, isPassed: bool)
    requires passed != total
    requires c < total.Length && passed.Length == total.Length
    modifies passed, total
    ensures forall c' :: 0 <= c' < total.Length ==>
      total[c'] == old(total[c']) + (if c' == c then 1 else 0) &&
      passed[c'] == old(passed[c']) + (if c' == c && isPassed then 1 else 0)
  {
    total[c] := total[c] + 1;
    if isPassed {
      passed[c] := passed[c] + 1;
    }
  }

  /** The lookup in the inverse matching map: simulated track i has a
      matched vertex track, and that track passes the vertex-track cut. */
  method LookUpMatchedVtx(sel: Selection, ev: Event, matchInv: map<int, int>, i: nat) returns (hasMatchedVtx: bool)
    requires ValidEvent(ev) && i < |ev.sim|
    requires matchInv == Inverse(ev.matches)
    ensures hasMatchedVtx <==>
      exists d :: 0 <= d < |ev.vtx| && Matched(ev.matches, d, i) && sel.goodVtx(ev.vtx[d])
    ensures hasMatchedVtx == HasMatchedGoodVtx(sel, ev, i)
  {
    hasMatchedVtx := false;
    if i in matchInv {
      InverseInRange(ev.matches, |ev.vtx|, |ev.sim|, i);
      hasMatchedVtx := sel.goodVtx(ev.vtx[matchInv[i]]);
    }
    HasMatchedGoodVtxMeans(sel, ev, i);
  }

  /** Counts the good vertex tracks of the event. */
  method CountMultiplicity(sel: Selection, ev: Event) returns (multiplicity: nat)
    ensures multiplicity == EventMultiplicity(sel, ev)
  {
    multiplicity := 0;
    var i := 0;
    while i < |ev.vtx|
      invariant 0 <= i <= |ev.vtx|
      invariant multiplicity == Multiplicity(sel, ev.vtx, i)
    {
      if sel.goodVtx(ev.vtx[i]) {
        multiplicity := multiplicity + 1;
      }
      i := i + 1;
    }
  }

  // ---------------------------------------------------------------------
  // The tables of the loop over the matches

  /** Per species: the matched good vertex tracks over (y_cm, pT) and over
      (multiplicity, y_cm, pT), and the primary fraction among them. */
  class MatchedTables {
    const cfg: Config
    const matchedYPt: array2<int>
    const matchedCentrYPt: array2<int>
    const primaryPassed: array2<int>
    const primaryTotal: array2<int>
    ghost const Repr: set<object>

    ghost predicate Valid() {
      ValidConfig(cfg) &&
      Repr == {matchedYPt, matchedCentrYPt, primaryPassed, primaryTotal} &&
      matchedYPt.Length0 == |Species| && matchedYPt.Length1 == cfg.binning.nYPt &&
      matchedCentrYPt.Length0 == |Species| && matchedCentrYPt.Length1 == cfg.binning.nCentrYPt &&
      primaryPassed.Length0 == |Species| && primaryPassed.Length1 == cfg.binning.nYPt &&
      primaryTotal.Length0 == |Species| && primaryTotal.Length1 == cfg.binning.nYPt &&
      matchedYPt != matchedCentrYPt && matchedYPt != primaryPassed && matchedYPt != primaryTotal &&
      matchedCentrYPt != primaryPassed && matchedCentrYPt != primaryTotal && primaryPassed != primaryTotal
    }

    /** Cell (s, c) of the (y_cm, pT) tables holds the fills of the run evs
        and of the first k matches of ev. */
    ghost predicate YPtCell(evs: seq<Event>, ev: Event, mult: int, k: nat, s: nat, c: nat)
      requires Valid() && AllValid(evs) && ValidEvent(ev) && k <= |ev.matches|
      requires s < |Species| && c < cfg.binning.nYPt
      reads Repr
    {
      matchedYPt[s, c] == RunMatched(cfg, evs, YPt, s, c, false) + MatchedCount(cfg, ev, mult, k, YPt, s, c, false) &&
      primaryTotal[s, c] == RunMatched(cfg, evs, YPt, s, c, false) + MatchedCount(cfg, ev, mult, k, YPt, s, c, false) &&
      primaryPassed[s, c] == RunMatched(cfg, evs, YPt, s, c, true) + MatchedCount(cfg, ev, mult, k, YPt, s, c, true)
    }

    /** The same for cell (s, c) of the (multiplicity, y_cm, pT) table. */
    ghost predicate CentrCell(evs: seq<Event>, ev: Event, mult: int, k: nat, s: nat, c: nat)
      requires Valid() && AllValid(evs) && ValidEvent(ev) && k <= |ev.matches|
      requires s < |Species| && c < cfg.binning.nCentrYPt
      reads Repr
    {
      matchedCentrYPt[s, c] == RunMatched(cfg, evs, CentrYPt, s, c, false) + MatchedCount(cfg, ev, mult, k, CentrYPt, s, c, false)
    }

    /** The tables hold the run evs plus the fills of the first k matches
        of ev. */
    ghost predicate Partly(evs: seq<Event>, ev: Event, mult: int, k: nat)
      requires Valid() && ValidEvent(ev) && k <= |ev.matches|
      reads Repr
    {
      AllValid(evs) &&
      (forall s: nat, c: nat :: s < |Species| && c < cfg.binning.nYPt ==> YPtCell(evs, ev, mult, k, s, c)) &&
      (forall s: nat, c: nat :: s < |Species| && c < cfg.binning.nCentrYPt ==> CentrCell(evs, ev, mult, k, s, c))
    }

    /** The tables hold the fills of the loops over the matches of every
        event of evs. */
    ghost predicate Hold(evs: seq<Event>)
      requires Valid()
      reads Repr
    {
      AllValid(evs) &&
      (forall s, c :: 0 <= s < |Species| && 0 <= c < cfg.binning.nYPt ==>
        matchedYPt[s, c] == RunMatched(cfg, evs, YPt, s, c, false) &&
        primaryTotal[s, c] == RunMatched(cfg, evs, YPt, s, c, false) &&
        primaryPassed[s, c] == RunMatched(cfg, evs, YPt, s, c, true)) &&
      (forall s, c :: 0 <= s < |Species| && 0 <= c < cfg.binning.nCentrYPt ==>
        matchedCentrYPt[s, c] == RunMatched(cfg, evs, CentrYPt, s, c, false))
    }

    /** The tables after the fills of match j alone. */
    twostate predicate Stepped(ev: Event, mult: int, j: nat)
      requires Valid() && ValidEvent(ev) && j < |ev.matches|
      reads Repr
    {
      (forall s, c :: 0 <= s < |Species| && 0 <= c < cfg.binning.nYPt ==>
        matchedYPt[s, c] == old(matchedYPt[s, c]) + MatchedHit(cfg, ev, mult, j, YPt, s, c, false) &&
        primaryTotal[s, c] == old(primaryTotal[s, c]) + MatchedHit(cfg, ev, mult, j, YPt, s, c, false) &&
        primaryPassed[s, c] == old(primaryPassed[s, c]) + MatchedHit(cfg, ev, mult, j, YPt, s, c, true)) &&
      (forall s, c :: 0 <= s < |Species| && 0 <= c < cfg.binning.nCentrYPt ==>
        matchedCentrYPt[s, c] == old(matchedCentrYPt[s, c]) + MatchedHit(cfg, ev, mult, j, CentrYPt, s, c, false))
    }

    /** The histograms count, and the primary fraction never has more
        passed than total entries. */
    ghost predicate Consistent()
      requires Valid()
      reads Repr
    {
      NonNegative(matchedYPt) && NonNegative(matchedCentrYPt) && Ordered(primaryPassed, primaryTotal)
    }

    /** All tables start empty: they hold the fills of no event. */
    constructor (config: Config)
      requires ValidConfig(config)
      ensures cfg == config && Valid() && fresh(Repr) && Hold([])
    {
      cfg := config;
      var n := |Species|;
      matchedYPt := new int[n, config.binning.nYPt]((_, _) => 0);
      matchedCentrYPt := new int[n, config.binning.nCentrYPt]((_, _) => 0);
      primaryPassed := new int[n, config.binning.nYPt]((_, _) => 0);
      primaryTotal := new int[n, config.binning.nYPt]((_, _) => 0);
      Repr := {matchedYPt, matchedCentrYPt, primaryPassed, primaryTotal};
    }

    /** Tables holding the fills of a run are consistent. */
    lemma HoldIsConsistent(evs: seq<Event>)
      requires Valid() && Hold(evs)
      ensures Consistent()
    {
      forall s, c | 0 <= s < |Species| && 0 <= c < cfg.binning.nYPt
        ensures 0 <= matchedYPt[s, c] && 0 <= primaryPassed[s, c] <= primaryTotal[s, c]
      {
        RunPrimaryAtMostTotal(cfg, evs, YPt, s, c);
      }
      forall s, c | 0 <= s < |Species| && 0 <= c < cfg.binning.nCentrYPt
        ensures 0 <= matchedCentrYPt[s, c]
      {
      }
    }

    /** Before the loop over the matches of ev, the tables hold the run evs
        and nothing of ev. */
    lemma Started(evs: seq<Event>, ev: Event, mult: int)
      requires Valid() && ValidEvent(ev) && Hold(evs)
      ensures Partly(evs, ev, mult, 0)
    {
      forall s: nat, c: nat | s < |Species| && c < cfg.binning.nYPt
        ensures YPtCell(evs, ev, mult, 0, s, c)
      {
      }
      forall s: nat, c: nat | s < |Species| && c < cfg.binning.nCentrYPt
        ensures CentrCell(evs, ev, mult, 0, s, c)
      {
      }
    }

    /** Once the loop over the matches of ev is over, the tables hold the
        run extended by ev. */
    lemma Completed(evs: seq<Event>, ev: Event)
      requires Valid() && ValidEvent(ev)
      requires Partly(evs, ev, EventMultiplicity(cfg.selection, ev), |ev.matches|)
      ensures Hold(evs + [ev])
    {
      var mult := EventMultiplicity(cfg.selection, ev);
      AllValidSnoc(evs, ev);
      forall s, c | 0 <= s < |Species| && 0 <= c < cfg.binning.nYPt
        ensures matchedYPt[s, c] == RunMatched(cfg, evs + [ev], YPt, s, c, false)
        ensures primaryTotal[s, c] == RunMatched(cfg, evs + [ev], YPt, s, c, false)
        ensures primaryPassed[s, c] == RunMatched(cfg, evs + [ev], YPt, s, c, true)
      {
        assert YPtCell(evs, ev, mult, |ev.matches|, s, c);
        RunMatchedSnoc(cfg, evs, ev, YPt, s, c, false);
        RunMatchedSnoc(cfg, evs, ev, YPt, s, c, true);
      }
      forall s, c | 0 <= s < |Species| && 0 <= c < cfg.binning.nCentrYPt
        ensures matchedCentrYPt[s, c] == RunMatched(cfg, evs + [ev], CentrYPt, s, c, false)
      {
        assert CentrCell(evs, ev, mult, |ev.matches|, s, c);
        RunMatchedSnoc(cfg, evs, ev, CentrYPt, s, c, false);
      }
    }

    /** The fills of match j: a good vertex track of a known species adds
        one entry to its (y_cm, pT) and (multiplicity, y_cm, pT) cells, and
        one to the primary fraction, passed when the simulated track has no
        mother. */
    method FillMatchedCells(ev: Event, mult: int, j: nat) returns (isGoodVtx: bool)
      requires Valid() && ValidEvent(ev) && j < |ev.matches|
      modifies Repr
      ensures isGoodVtx == IsGoodMatch(cfg.selection, ev, j)
      ensures Stepped(ev, mult, j)
    {
      var vtx := ev.vtx[ev.matches[j].vtxId];
      var sim := ev.sim[ev.matches[j].simId];
      var pdg := sim.pdg;
      isGoodVtx := cfg.selection.goodVtx(vtx);
      var slot := Slot(pdg);
      if slot.Some? {
        if isGoodVtx {
          var s := slot.value;
          var c2 := MatchedCell(cfg, ev, mult, j, YPt);
          var c3 := MatchedCell(cfg, ev, mult, j, CentrYPt);
          FillCell(matchedYPt, s, c2);
          FillCell(matchedCentrYPt, s, c3);
          FillEfficiencyCell(primaryPassed, primaryTotal, s, c2, sim.motherId == -1);
        }
      }
    }

    /** The body of the loop over the matches, for match j: its fills take
        the tables one match further. */
    method FillMatchedTrack(ghost evs: seq<Event>, ev: Event, mult: int, j: nat) returns (isGoodVtx: bool)
      requires Valid() && ValidEvent(ev) && j < |ev.matches|
      requires Partly(evs, ev, mult, j)
      modifies Repr
      ensures isGoodVtx == IsGoodMatch(cfg.selection, ev, j)
      ensures Partly(evs, ev, mult, j + 1)
    {
      isGoodVtx := FillMatchedCells(ev, mult, j);
      ghost var next := j + 1;
      forall s: nat, c: nat | s < |Species| && c < cfg.binning.nYPt
        ensures YPtCell(evs, ev, mult, next, s, c)
      {
        assert old(YPtCell(evs, ev, mult, j, s, c));
      }
      forall s: nat, c: nat | s < |Species| && c < cfg.binning.nCentrYPt
        ensures CentrCell(evs, ev, mult, next, s, c)
      {
        assert old(CentrCell(evs, ev, mult, j, s, c));
      }
    }

    /** The loop over the matches: the tables of the matched species,
        filled for good vertex tracks only, and the matched-good counter. */
    method FillMatched(ghost evs: seq<Event>, ev: Event, mult: int) returns (matchedGood: nat)
      requires Valid() && ValidEvent(ev) && Hold(evs)
      requires mult == EventMultiplicity(cfg.selection, ev)
      modifies Repr
      ensures matchedGood == GoodMatches(cfg.selection, ev, |ev.matches|)
      ensures Hold(evs + [ev])
    {
      Started(evs, ev, mult);
      matchedGood := 0;
      var j := 0;
      while j < |ev.matches|
        invariant 0 <= j <= |ev.matches|
        invariant matchedGood == GoodMatches(cfg.selection, ev, j)
        invariant Partly(evs, ev, mult, j)
      {
        var isGoodVtx := FillMatchedTrack(evs, ev, mult, j);
        if isGoodVtx {
          matchedGood := matchedGood + 1;
        }
        j := j + 1;
      }
      Completed(evs, ev);
    }
  }

  // ---------------------------------------------------------------------
  // The tables of the loop over the simulated tracks

  /** Per species: the selected simulated tracks over (y_cm, pT) and over
      (multiplicity, y_cm, pT), and the efficiencies of matched over
      selected simulated tracks on the same two binnings. */
  class SimTables {
    const cfg: Config
    const simYPt: array2<int>
    const simCentrYPt: array2<int>
    const msimPassed: array2<int>
    const msimTotal: array2<int>
    const msimCentrPassed: array2<int>
    const msimCentrTotal: array2<int>
    ghost const Repr: set<object>

    ghost predicate Valid() {
      ValidConfig(cfg) &&
      Repr == {simYPt, simCentrYPt, msimPassed, msimTotal, msimCentrPassed, msimCentrTotal} &&
      simYPt.Length0 == |Species| && simYPt.Length1 == cfg.binning.nYPt &&
      simCentrYPt.Length0 == |Species| && simCentrYPt.Length1 == cfg.binning.nCentrYPt &&
      msimPassed.Length0 == |Species| && msimPassed.Length1 == cfg.binning.nYPt &&
      msimTotal.Length0 == |Species| && msimTotal.Length1 == cfg.binning.nYPt &&
      msimCentrPassed.Length0 == |Species| && msimCentrPassed.Length1 == cfg.binning.nCentrYPt &&
      msimCentrTotal.Length0 == |Species| && msimCentrTotal.Length1 == cfg.binning.nCentrYPt &&
      simYPt != simCentrYPt && simYPt != msimPassed && simYPt != msimTotal && simYPt != msimCentrPassed &&
      simYPt != msimCentrTotal && simCentrYPt != msimPassed && simCentrYPt != msimTotal &&
      simCentrYPt != msimCentrPassed && simCentrYPt != msimCentrTotal && msimPassed != msimTotal &&
      msimPassed != msimCentrPassed && msimPassed != msimCentrTotal && msimTotal != msimCentrPassed &&
      msimTotal != msimCentrTotal && msimCentrPassed != msimCentrTotal
    }

    /** Cell (s, c) of the (y_cm, pT) histogram holds the fills of the run
        evs and of the first k simulated tracks of ev: every selected track. */
    ghost predicate YPtHistogramCell(evs: seq<Event>, ev: Event, mult: int, k: nat, s: nat, c: nat)
      requires Valid() && AllValid(evs) && ValidEvent(ev) && k <= |ev.sim|
      requires s < |Species| && c < cfg.binning.nYPt
      reads simYPt
    {
      simYPt[s, c] == RunSim(cfg, evs, YPt, s, c, false) + SimCount(cfg, ev, mult, k, YPt, s, c, false)
    }

    /** The same for cell (s, c) of the (multiplicity, y_cm, pT) histogram. */
    ghost predicate CentrHistogramCell(evs: seq<Event>, ev: Event, mult: int, k: nat, s: nat, c: nat)
      requires Valid() && AllValid(evs) && ValidEvent(ev) && k <= |ev.sim|
      requires s < |Species| && c < cfg.binning.nCentrYPt
      reads simCentrYPt
    {
      simCentrYPt[s, c] == RunSim(cfg, evs, CentrYPt, s, c, false) + SimCount(cfg, ev, mult, k, CentrYPt, s, c, false)
    }

    /** Cell (s, c) of the (y_cm, pT) efficiency holds the fills of the run
        evs and of the first k simulated tracks of ev: every selected track
        in total, those with a good matched vertex track in passed. */
    ghost predicate YPtEfficiencyCell(evs: seq<Event>, ev: Event, mult: int, k: nat, s: nat, c: nat)
      requires Valid() && AllValid(evs) && ValidEvent(ev) && k <= |ev.sim|
      requires s < |Species| && c < cfg.binning.nYPt
      reads msimPassed, msimTotal
    {
      msimTotal[s, c] == RunSim(cfg, evs, YPt, s, c, false) + SimCount(cfg, ev, mult, k, YPt, s, c, false) &&
      msimPassed[s, c] == RunSim(cfg, evs, YPt, s, c, true) + SimCount(cfg, ev, mult, k, YPt, s, c, true)
    }

    /** The same for cell (s, c) of the (multiplicity, y_cm, pT) efficiency. */
    ghost predicate CentrEfficiencyCell(evs: seq<Event>, ev: Event, mult: int, k: nat, s: nat, c: nat)
      requires Valid() && AllValid(evs) && ValidEvent(ev) && k <= |ev.sim|
      requires s < |Species| && c < cfg.binning.nCentrYPt
      reads msimCentrPassed, msimCentrTotal
    {
      msimCentrTotal[s, c] == RunSim(cfg, evs, CentrYPt, s, c, false) + SimCount(cfg, ev, mult, k, CentrYPt, s, c, false) &&
      msimCentrPassed[s, c] == RunSim(cfg, evs, CentrYPt, s, c, true) + SimCount(cfg, ev, mult, k, CentrYPt, s, c, true)
    }

    /** The histograms hold the run evs plus the fills of the first k
        simulated tracks of ev. */
    ghost predicate HistogramsPartly(evs: seq<Event>, ev: Event, mult: int, k: nat)
      requires Valid() && ValidEvent(ev) && k <= |ev.sim|
      reads simYPt, simCentrYPt
    {
      AllValid(evs) &&
      (forall s: nat, c: nat :: s < |Species| && c < cfg.binning.nYPt ==> YPtHistogramCell(evs, ev, mult, k, s, c)) &&
      (forall s: nat, c: nat :: s < |Species| && c < cfg.binning.nCentrYPt ==> CentrHistogramCell(evs, ev, mult, k, s, c))
    }

    /** The efficiencies hold the run evs plus the fills of the first k
        simulated tracks of ev. */
    ghost predicate EfficienciesPartly(evs: seq<Event>, ev: Event, mult: int, k: nat)
      requires Valid() && ValidEvent(ev) && k <= |ev.sim|
      reads msimPassed, msimTotal, msimCentrPassed, msimCentrTotal
    {
      AllValid(evs) &&
      (forall s: nat, c: nat :: s < |Species| && c < cfg.binning.nYPt ==> YPtEfficiencyCell(evs, ev, mult, k, s, c)) &&
      (forall s: nat, c: nat :: s < |Species| && c < cfg.binning.nCentrYPt ==> CentrEfficiencyCell(evs, ev, mult, k, s, c))
    }

    /** The tables hold the run evs plus the fills of the first k simulated
        tracks of ev. */
    ghost predicate Partly(evs: seq<Event>, ev: Event, mult: int, k: nat)
      requires Valid() && ValidEvent(ev) && k <= |ev.sim|
      reads Repr
    {
      HistogramsPartly(evs, ev, mult, k) && EfficienciesPartly(evs, ev, mult, k)
    }

    /** The tables hold, over every event of evs, every selected simulated
        track in the histograms and the efficiency totals, and those with a
        good matched vertex track in passed. */
    ghost predicate Hold(evs: seq<Event>)
      requires Valid()
      reads Repr
    {
      AllValid(evs) &&
      (forall s, c :: 0 <= s < |Species| && 0 <= c < cfg.binning.nYPt ==>
        simYPt[s, c] == RunSim(cfg, evs, YPt, s, c, false) &&
        msimTotal[s, c] == RunSim(cfg, evs, YPt, s, c, false) &&
        msimPassed[s, c] == RunSim(cfg, evs, YPt, s, c, true)) &&
      (forall s, c :: 0 <= s < |Species| && 0 <= c < cfg.binning.nCentrYPt ==>
        simCentrYPt[s, c] == RunSim(cfg, evs, CentrYPt, s, c, false) &&
        msimCentrTotal[s, c] == RunSim(cfg, evs, CentrYPt, s, c, false) &&
        msimCentrPassed[s, c] == RunSim(cfg, evs, CentrYPt, s, c, true))
    }

    /** The histograms after the fills of simulated track i alone. */
    twostate predicate HistogramsStepped(ev: Event, mult: int, i: nat)
      requires Valid() && ValidEvent(ev) && i < |ev.sim|
      reads simYPt, simCentrYPt
    {
      (forall s, c :: 0 <= s < |Species| && 0 <= c < cfg.binning.nYPt ==>
        simYPt[s, c] == old(simYPt[s, c]) + SimHit(cfg, ev, mult, i, YPt, s, c, false)) &&
      (forall s, c :: 0 <= s < |Species| && 0 <= c < cfg.binning.nCentrYPt ==>
        simCentrYPt[s, c] == old(simCentrYPt[s, c]) + SimHit(cfg, ev, mult, i, CentrYPt, s, c, false))
    }

    /** The efficiencies after the fills of simulated track i alone. */
    twostate predicate EfficienciesStepped(ev: Event, mult: int, i: nat)
      requires Valid() && ValidEvent(ev) && i < |ev.sim|
      reads msimPassed, msimTotal, msimCentrPassed, msimCentrTotal
    {
      (forall s, c :: 0 <= s < |Species| && 0 <= c < cfg.binning.nYPt ==>
        msimTotal[s, c] == old(msimTotal[s, c]) + SimHit(cfg, ev, mult, i, YPt, s, c, false) &&
        msimPassed[s, c] == old(msimPassed[s, c]) + SimHit(cfg, ev, mult, i, YPt, s, c, true)) &&
      (forall s, c :: 0 <= s < |Species| && 0 <= c < cfg.binning.nCentrYPt ==>
        msimCentrTotal[s, c] == old(msimCentrTotal[s, c]) + SimHit(cfg, ev, mult, i, CentrYPt, s, c, false) &&
        msimCentrPassed[s, c] == old(msimCentrPassed[s, c]) + SimHit(cfg, ev, mult, i, CentrYPt, s, c, true))
    }

    /** The histograms count, and the matched-over-simulated efficiencies
        never have more passed than total entries. */
    ghost predicate Consistent()
      requires Valid()
      reads Repr
    {
      NonNegative(simYPt) && NonNegative(simCentrYPt) &&
      Ordered(msimPassed, msimTotal) && Ordered(msimCentrPassed, msimCentrTotal)
    }

    /** All tables start empty: they hold the fills of no event. */
    constructor (config: Config)
      requires ValidConfig(config)
      ensures cfg == config && Valid() && fresh(Repr) && Hold([])
    {
      cfg := config;
      var n := |Species|;
      simYPt := new int[n, config.binning.nYPt]((_, _) => 0);
      simCentrYPt := new int[n, config.binning.nCentrYPt]((_, _) => 0);
      msimPassed := new int[n, config.binning.nYPt]((_, _) => 0);
      msimTotal := new int[n, config.binning.nYPt]((_, _) => 0);
      msimCentrPassed := new int[n, config.binning.nCentrYPt]((_, _) => 0);
      msimCentrTotal := new int[n, config.binning.nCentrYPt]((_, _) => 0);
      Repr := {simYPt, simCentrYPt, msimPassed, msimTotal, msimCentrPassed, msimCentrTotal};
    }

    /** Tables holding the fills of a run are consistent. */
    lemma HoldIsConsistent(evs: seq<Event>)
      requires Valid() && Hold(evs)
      ensures Consistent()
    {
      forall s, c | 0 <= s < |Species| && 0 <= c < cfg.binning.nYPt
        ensures 0 <= simYPt[s, c] && 0 <= msimPassed[s, c] <= msimTotal[s, c]
      {
        RunSimMatchedAtMostTotal(cfg, evs, YPt, s, c);
      }
      forall s, c | 0 <= s < |Species| && 0 <= c < cfg.binning.nCentrYPt
        ensures 0 <= simCentrYPt[s, c] && 0 <= msimCentrPassed[s, c] <= msimCentrTotal[s, c]
      {
        RunSimMatchedAtMostTotal(cfg, evs, CentrYPt, s, c);
      }
    }

    /** Before the loop over the simulated tracks of ev, the tables hold the
        run evs and nothing of ev. */
    lemma Started(evs: seq<Event>, ev: Event, mult: int)
      requires Valid() && ValidEvent(ev) && Hold(evs)
      ensures Partly(evs, ev, mult, 0)
    {
      forall s: nat, c: nat | s < |Species| && c < cfg.binning.nYPt
        ensures YPtHistogramCell(evs, ev, mult, 0, s, c) && YPtEfficiencyCell(evs, ev, mult, 0, s, c)
      {
      }
      forall s: nat, c: nat | s < |Species| && c < cfg.binning.nCentrYPt
        ensures CentrHistogramCell(evs, ev, mult, 0, s, c) && CentrEfficiencyCell(evs, ev, mult, 0, s, c)
      {
      }
    }

    /** Once the loop over the simulated tracks of ev is over, the tables
        hold the run extended by ev. */
    lemma Completed(evs: seq<Event>, ev: Event)
      requires Valid() && ValidEvent(ev)
      requires Partly(evs, ev, EventMultiplicity(cfg.selection, ev), |ev.sim|)
      ensures Hold(evs + [ev])
    {
      var mult := EventMultiplicity(cfg.selection, ev);
      AllValidSnoc(evs, ev);
      forall s, c | 0 <= s < |Species| && 0 <= c < cfg.binning.nYPt
        ensures simYPt[s, c] == RunSim(cfg, evs + [ev], YPt, s, c, false)
        ensures msimTotal[s, c] == RunSim(cfg, evs + [ev], YPt, s, c, false)
        ensures msimPassed[s, c] == RunSim(cfg, evs + [ev], YPt, s, c, true)
      {
        assert YPtHistogramCell(evs, ev, mult, |ev.sim|, s, c) && YPtEfficiencyCell(evs, ev, mult, |ev.sim|, s, c);
        RunSimSnoc(cfg, evs, ev, YPt, s, c, false);
        RunSimSnoc(cfg, evs, ev, YPt, s, c, true);
      }
      forall s, c | 0 <= s < |Species| && 0 <= c < cfg.binning.nCentrYPt
        ensures simCentrYPt[s, c] == RunSim(cfg, evs + [ev], CentrYPt, s, c, false)
        ensures msimCentrTotal[s, c] == RunSim(cfg, evs + [ev], CentrYPt, s, c, false)
        ensures msimCentrPassed[s, c] == RunSim(cfg, evs + [ev], CentrYPt, s, c, true)
      {
        assert CentrHistogramCell(evs, ev, mult, |ev.sim|, s, c) && CentrEfficiencyCell(evs, ev, mult, |ev.sim|, s, c);
        RunSimSnoc(cfg, evs, ev, CentrYPt, s, c, false);
        RunSimSnoc(cfg, evs, ev, CentrYPt, s, c, true);
      }
    }

    /** The histogram fills of simulated track i: a selected track of a
        known species adds one entry to its two cells. */
    method FillSimHistograms(ev: Event, mult: int, i: nat)
      requires Valid() && ValidEvent(ev) && i < |ev.sim|
      modifies simYPt, simCentrYPt
      ensures HistogramsStepped(ev, mult, i)
    {
      var sim := ev.sim[i];
      if cfg.selection.goodSim(sim) {
        var slot := Slot(sim.pdg);
        if slot.Some? {
          var s := slot.value;
          FillCell(simYPt, s, SimCell(cfg, ev, mult, i, YPt));
          FillCell(simCentrYPt, s, SimCell(cfg, ev, mult, i, CentrYPt));
        }
      }
    }

    /** The efficiency fills of simulated track i, under the same guard:
        passed when the inverse match names a good vertex track. */
    method FillMatchedSimCells(ev: Event, mult: int, matchInv: map<int, int>, i: nat)
      requires Valid() && ValidEvent(ev) && i < |ev.sim|
      requires matchInv == Inverse(ev.matches)
      modifies msimPassed, msimTotal, msimCentrPassed, msimCentrTotal
      ensures EfficienciesStepped(ev, mult, i)
    {
      var sim := ev.sim[i];
      if cfg.selection.goodSim(sim) {
        var slot := Slot(sim.pdg);
        if slot.Some? {
          var s := slot.value;
          var hasMatchedVtx := LookUpMatchedVtx(cfg.selection, ev, matchInv, i);
          FillEfficiencyCell(msimPassed, msimTotal, s, SimCell(cfg, ev, mult, i, YPt), hasMatchedVtx);
          FillEfficiencyCell(msimCentrPassed, msimCentrTotal, s, SimCell(cfg, ev, mult, i, CentrYPt), hasMatchedVtx);
        }
      }
    }

    /** The histogram fills of simulated track i take the histograms one
        track further. */
    method StepHistograms(ghost evs: seq<Event>, ev: Event, mult: int, i: nat)
      requires Valid() && ValidEvent(ev) && i < |ev.sim|
      requires HistogramsPartly(evs, ev, mult, i)
      modifies simYPt, simCentrYPt
      ensures HistogramsPartly(evs, ev, mult, i + 1)
    {
      FillSimHistograms(ev, mult, i);
      ghost var next := i + 1;
      forall s: nat, c: nat | s < |Species| && c < cfg.binning.nYPt
        ensures YPtHistogramCell(evs, ev, mult, next, s, c)
      {
        assert old(YPtHistogramCell(evs, ev, mult, i, s, c));
      }
      forall s: nat, c: nat | s < |Species| && c < cfg.binning.nCentrYPt
        ensures CentrHistogramCell(evs, ev, mult, next, s, c)
      {
        assert old(CentrHistogramCell(evs, ev, mult, i, s, c));
      }
    }

    /** The efficiency fills of simulated track i take the efficiencies one
        track further. */
    method StepEfficiencies(ghost evs: seq<Event>, ev: Event, mult: int, matchInv: map<int, int>, i: nat)
      requires Valid() && ValidEvent(ev) && i < |ev.sim|
      requires matchInv == Inverse(ev.matches)
      requires EfficienciesPartly(evs, ev, mult, i)
      modifies msimPassed, msimTotal, msimCentrPassed, msimCentrTotal
      ensures EfficienciesPartly(evs, ev, mult, i + 1)
    {
      FillMatchedSimCells(ev, mult, matchInv, i);
      ghost var next := i + 1;
      forall s: nat, c: nat | s < |Species| && c < cfg.binning.nYPt
        ensures YPtEfficiencyCell(evs, ev, mult, next, s, c)
      {
        assert old(YPtEfficiencyCell(evs, ev, mult, i, s, c));
      }
      forall s: nat, c: nat | s < |Species| && c < cfg.binning.nCentrYPt
        ensures CentrEfficiencyCell(evs, ev, mult, next, s, c)
      {
        assert old(CentrEfficiencyCell(evs, ev, mult, i, s, c));
      }
    }

    /** The body of the loop over the simulated tracks, for track i: its
        fills take the tables one track further. */
    method FillSimTrack(ghost evs: seq<Event>, ev: Event, mult: int, matchInv: map<int, int>, i: nat)
      requires Valid() && ValidEvent(ev) && i < |ev.sim|
      requires matchInv == Inverse(ev.matches)
      requires Partly(evs, ev, mult, i)
      modifies Repr
      ensures Partly(evs, ev, mult, i + 1)
    {
      StepHistograms(evs, ev, mult, i);
      StepEfficiencies(evs, ev, mult, matchInv, i);
    }

    /** The loop over the simulated tracks. */
    method FillSim(ghost evs: seq<Event>, ev: Event, mult: int)
      requires Valid() && ValidEvent(ev) && Hold(evs)
      requires mult == EventMultiplicity(cfg.selection, ev)
      modifies Repr
      ensures Hold(evs + [ev])
    {
      Started(evs, ev, mult);
      var matchInv := Inverse(ev.matches);
      var i := 0;
      while i < |ev.sim|
        invariant 0 <= i <= |ev.sim|
        invariant Partly(evs, ev, mult, i)
      {
        FillSimTrack(evs, ev, mult, matchInv, i);
        i := i + 1;
      }
      Completed(evs, ev);
    }
  }

  // ---------------------------------------------------------------------
  // The charged-hadron efficiencies of the loop over the vertex tracks

  /** Indexed by (eta, pT) cell: the efficiency of matched over good vertex
      tracks for all tracks, the negative ones and the positive ones. */
  class ChargedHadronTables {
    const cfg: Config
    const allPassed: array<int>
    const allTotal: array<int>
    const negPassed: array<int>
    const negTotal: array<int>
    const posPassed: array<int>
    const posTotal: array<int>
    ghost const Repr: set<object>

    ghost predicate Valid() {
      ValidConfig(cfg) &&
      Repr == {allPassed, allTotal, negPassed, negTotal, posPassed, posTotal} &&
      allPassed.Length == cfg.binning.nEtaPt && allTotal.Length == cfg.binning.nEtaPt &&
      negPassed.Length == cfg.binning.nEtaPt && negTotal.Length == cfg.binning.nEtaPt &&
      posPassed.Length == cfg.binning.nEtaPt && posTotal.Length == cfg.binning.nEtaPt &&
      allPassed != allTotal && allPassed != negPassed && allPassed != negTotal && allPassed != posPassed &&
      allPassed != posTotal && allTotal != negPassed && allTotal != negTotal && allTotal != posPassed &&
      allTotal != posTotal && negPassed != negTotal && negPassed != posPassed && negPassed != posTotal &&
      negTotal != posPassed && negTotal != posTotal && posPassed != posTotal
    }

    /** Cell c of every table holds the fills of the run evs and of the
        first k vertex tracks of ev. */
    ghost predicate Cell(evs: seq<Event>, ev: Event, k: nat, c: nat)
      requires Valid() && k <= |ev.vtx| && c < cfg.binning.nEtaPt
      reads Repr
    {
      allTotal[c] == RunCharged(cfg, evs, AllCharges, c, false) + ChargedCount(cfg, ev, k, AllCharges, c, false) &&
      allPassed[c] == RunCharged(cfg, evs, AllCharges, c, true) + ChargedCount(cfg, ev, k, AllCharges, c, true) &&
      negTotal[c] == RunCharged(cfg, evs, Negative, c, false) + ChargedCount(cfg, ev, k, Negative, c, false) &&
      negPassed[c] == RunCharged(cfg, evs, Negative, c, true) + ChargedCount(cfg, ev, k, Negative, c, true) &&
      posTotal[c] == RunCharged(cfg, evs, Positive, c, false) + ChargedCount(cfg, ev, k, Positive, c, false) &&
      posPassed[c] == RunCharged(cfg, evs, Positive, c, true) + ChargedCount(cfg, ev, k, Positive, c, true)
    }

    /** The tables hold the run evs plus the fills of the first k vertex
        tracks of ev. */
    ghost predicate Partly(evs: seq<Event>, ev: Event, k: nat)
      requires Valid() && k <= |ev.vtx|
      reads Repr
    {
      forall c: nat :: c < cfg.binning.nEtaPt ==> Cell(evs, ev, k, c)
    }

    /** The tables hold the fills of the loops over the vertex tracks of
        every event of evs. */
    ghost predicate Hold(evs: seq<Event>)
      requires Valid()
      reads Repr
    {
      forall c :: 0 <= c < cfg.binning.nEtaPt ==>
        allTotal[c] == RunCharged(cfg, evs, AllCharges, c, false) &&
        allPassed[c] == RunCharged(cfg, evs, AllCharges, c, true) &&
        negTotal[c] == RunCharged(cfg, evs, Negative, c, false) &&
        negPassed[c] == RunCharged(cfg, evs, Negative, c, true) &&
        posTotal[c] == RunCharged(cfg, evs, Positive, c, false) &&
        posPassed[c] == RunCharged(cfg, evs, Positive, c, true)
    }

    /** The tables after the fills of vertex track i alone. */
    twostate predicate Stepped(ev: Event, i: nat)
      requires Valid() && i < |ev.vtx|
      reads Repr
    {
      forall c :: 0 <= c < cfg.binning.nEtaPt ==>
        allTotal[c] == old(allTotal[c]) + ChargedHit(cfg, ev, i, AllCharges, c, false) &&
        allPassed[c] == old(allPassed[c]) + ChargedHit(cfg, ev, i, AllCharges, c, true) &&
        negTotal[c] == old(negTotal[c]) + ChargedHit(cfg, ev, i, Negative, c, false) &&
        negPassed[c] == old(negPassed[c]) + ChargedHit(cfg, ev, i, Negative, c, true) &&
        posTotal[c] == old(posTotal[c]) + ChargedHit(cfg, ev, i, Positive, c, false) &&
        posPassed[c] == old(posPassed[c]) + ChargedHit(cfg, ev, i, Positive, c, true)
    }

    /** Each efficiency has 0 <= passed <= total, and the negative and
        positive tables together never exceed the all-tracks table. */
    ghost predicate Consistent()
      requires Valid()
      reads Repr
    {
      forall c :: 0 <= c < cfg.binning.nEtaPt ==>
        0 <= allPassed[c] <= allTotal[c] && 0 <= negPassed[c] <= negTotal[c] && 0 <= posPassed[c] <= posTotal[c] &&
        negTotal[c] + posTotal[c] <= allTotal[c] && negPassed[c] + posPassed[c] <= allPassed[c]
    }

    /** All tables start empty: they hold the fills of no event. */
    constructor (config: Config)
      requires ValidConfig(config)
      ensures cfg == config && Valid() && fresh(Repr) && Hold([])
    {
      cfg := config;
      var n := config.binning.nEtaPt;
      allPassed := new int[n](_ => 0);
      allTotal := new int[n](_ => 0);
      negPassed := new int[n](_ => 0);
      negTotal := new int[n](_ => 0);
      posPassed := new int[n](_ => 0);
      posTotal := new int[n](_ => 0);
      Repr := {allPassed, allTotal, negPassed, negTotal, posPassed, posTotal};
    }

    /** Tables holding the fills of a run are consistent. */
    lemma HoldIsConsistent(evs: seq<Event>)
      requires Valid() && Hold(evs)
      ensures Consistent()
    {
      forall c | 0 <= c < cfg.binning.nEtaPt
        ensures 0 <= allPassed[c] <= allTotal[c] && 0 <= negPassed[c] <= negTotal[c] && 0 <= posPassed[c] <= posTotal[c]
        ensures negTotal[c] + posTotal[c] <= allTotal[c] && negPassed[c] + posPassed[c] <= allPassed[c]
      {
        RunChargedOrdered(cfg, evs, c);
      }
    }

    /** Before the loop over the vertex tracks of ev, the tables hold the
        run evs and nothing of ev. */
    lemma Started(evs: seq<Event>, ev: Event)
      requires Valid() && Hold(evs)
      ensures Partly(evs, ev, 0)
    {
      forall c: nat | c < cfg.binning.nEtaPt
        ensures Cell(evs, ev, 0, c)
      {
      }
    }

    /** Once the loop over the vertex tracks of ev is over, the tables hold
        the run extended by ev. */
    lemma Completed(evs: seq<Event>, ev: Event)
      requires Valid() && Partly(evs, ev, |ev.vtx|)
      ensures Hold(evs + [ev])
    {
      forall c | 0 <= c < cfg.binning.nEtaPt
        ensures allTotal[c] == RunCharged(cfg, evs + [ev], AllCharges, c, false)
        ensures allPassed[c] == RunCharged(cfg, evs + [ev], AllCharges, c, true)
        ensures negTotal[c] == RunCharged(cfg, evs + [ev], Negative, c, false)
        ensures negPassed[c] == RunCharged(cfg, evs + [ev], Negative, c, true)
        ensures posTotal[c] == RunCharged(cfg, evs + [ev], Positive, c, false)
        ensures posPassed[c] == RunCharged(cfg, evs + [ev], Positive, c, true)
      {
        assert Cell(evs, ev, |ev.vtx|, c);
        RunChargedSnoc(cfg, evs, ev, AllCharges, c, false);
        RunChargedSnoc(cfg, evs, ev, AllCharges, c, true);
        RunChargedSnoc(cfg, evs, ev, Negative, c, false);
        RunChargedSnoc(cfg, evs, ev, Negative, c, true);
        RunChargedSnoc(cfg, evs, ev, Positive, c, false);
        RunChargedSnoc(cfg, evs, ev, Positive, c, true);
      }
    }

    /** The fills of vertex track i: a good track adds one entry to the
        all-tracks efficiency and to the one of its charge sign, passed when
        it has a forward match. */
    method FillChargedCells(ev: Event, matchFwd: map<int, int>, i: nat)
      requires Valid() && i < |ev.vtx|
      requires matchFwd == Forward(ev.matches)
      modifies Repr
      ensures Stepped(ev, i)
    {
      var vtx := ev.vtx[i];
      if cfg.selection.goodVtx(vtx) {
        var hasMatchingSim := i in matchFwd;
        var c := ChargedCell(cfg, ev, i);
        FillEfficiencyBin(allPassed, allTotal, c, hasMatchingSim);
        if vtx.charge < 0 {
          FillEfficiencyBin(negPassed, negTotal, c, hasMatchingSim);
        } else if vtx.charge > 0 {
          FillEfficiencyBin(posPassed, posTotal, c, hasMatchingSim);
        }
      }
    }

    /** The body of the loop over the vertex tracks, for track i: its fills
        take the tables one track further. */
    method FillChargedTrack(ghost evs: seq<Event>, ev: Event, matchFwd: map<int, int>, i: nat)
      requires Valid() && i < |ev.vtx|
      requires matchFwd == Forward(ev.matches)
      requires Partly(evs, ev, i)
      modifies Repr
      ensures Partly(evs, ev, i + 1)
    {
      FillChargedCells(ev, matchFwd, i);
      ghost var next := i + 1;
      forall c: nat | c < cfg.binning.nEtaPt
        ensures Cell(evs, ev, next, c)
      {
        assert old(Cell(evs, ev, i, c));
      }
    }

    /** The loop over the vertex tracks: every good track fills the
        all-tracks table, and the negative or positive table by its charge;
        passed when the track has a forward match. */
    method FillChargedHadrons(ghost evs: seq<Event>, ev: Event)
      requires Valid() && Hold(evs)
      modifies Repr
      ensures Hold(evs + [ev])
    {
      Started(evs, ev);
      var matchFwd := Forward(ev.matches);
      var i := 0;
      while i < |ev.vtx|
        invariant 0 <= i <= |ev.vtx|
        invariant Partly(evs, ev, i)
      {
        FillChargedTrack(evs, ev, matchFwd, i);
        i := i + 1;
      }
      Completed(evs, ev);
    }
  }

  // ---------------------------------------------------------------------
  // The multiplicity histograms

  /** The multiplicity of good vertex tracks, in a fine and in a coarse
      binning. */
  class MultiplicityHistograms {
    const cfg: Config
    const fine: array<int>
    const coarse: array<int>
    ghost const Repr: set<object>

    ghost predicate Valid() {
      ValidConfig(cfg) &&
      Repr == {fine, coarse} &&
      fine.Length == cfg.binning.nMult && coarse.Length == cfg.binning.nMultBinned &&
      fine != coarse
    }

    /** Each histogram holds one entry per event of evs, in the cell of the
        event's multiplicity. */
    ghost predicate Hold(evs: seq<Event>)
      requires Valid()
      reads Repr
    {
      (forall c :: 0 <= c < fine.Length ==> fine[c] == RunMultiplicity(cfg, evs, false, c)) &&
      (forall c :: 0 <= c < coarse.Length ==> coarse[c] == RunMultiplicity(cfg, evs, true, c))
    }

    /** Both histograms start empty: they hold no event. */
    constructor (config: Config)
      requires ValidConfig(config)
      ensures cfg == config && Valid() && fresh(Repr) && Hold([])
    {
      cfg := config;
      fine := new int[config.binning.nMult](_ => 0);
      coarse := new int[config.binning.nMultBinned](_ => 0);
      Repr := {fine, coarse};
    }

    /** Fills both histograms with the event's multiplicity. */
    method FillMultiplicity(ghost evs: seq<Event>, ev: Event, mult: int)
      requires Valid() && Hold(evs)
      requires mult == EventMultiplicity(cfg.selection, ev)
      modifies Repr
      ensures Hold(evs + [ev])
    {
      var c := cfg.binning.cellMult(mult);
      fine[c] := fine[c] + 1;
      var d := cfg.binning.cellMultBinned(mult);
      coarse[d] := coarse[d] + 1;
      forall c' | 0 <= c' < fine.Length
        ensures fine[c'] == RunMultiplicity(cfg, evs + [ev], false, c')
      {
        RunMultiplicitySnoc(cfg, evs, ev, false, c');
      }
      forall c' | 0 <= c' < coarse.Length
        ensures coarse[c'] == RunMultiplicity(cfg, evs + [ev], true, c')
      {
        RunMultiplicitySnoc(cfg, evs, ev, true, c');
      }
    }
  }

  // ---------------------------------------------------------------------
  // The task

  /** The matching task: all its tables and the events processed so far. */
  class PidMatching {
    const cfg: Config
    const matched: MatchedTables
    const sim: SimTables
    const charged: ChargedHadronTables
    const multHists: MultiplicityHistograms

    /** The events processed so far, in order. */
    ghost var events: seq<Event>

    ghost predicate Valid() {
      matched.cfg == cfg && sim.cfg == cfg && charged.cfg == cfg && multHists.cfg == cfg &&
      matched.Valid() && sim.Valid() && charged.Valid() && multHists.Valid() &&
      matched.Repr !! sim.Repr && matched.Repr !! charged.Repr && matched.Repr !! multHists.Repr &&
      sim.Repr !! charged.Repr && sim.Repr !! multHists.Repr && charged.Repr !! multHists.Repr
    }

    /** Every table holds the fills of the events processed so far. */
    ghost predicate Accumulated()
      requires Valid()
      reads this, matched.Repr, sim.Repr, charged.Repr, multHists.Repr
    {
      matched.Hold(events) && sim.Hold(events) && charged.Hold(events) && multHists.Hold(events)
    }

    /** Every efficiency has 0 <= passed <= total in every cell and every
        histogram counts. */
    ghost predicate Consistent()
      requires Valid()
      reads matched.Repr, sim.Repr, charged.Repr
    {
      matched.Consistent() && sim.Consistent() && charged.Consistent()
    }

    /** The tables of every species start empty (InitEfficiencies): they
        hold the fills of no event. */
    constructor (config: Config)
      requires ValidConfig(config)
      ensures cfg == config && Valid()
      ensures fresh(matched.Repr) && fresh(sim.Repr) && fresh(charged.Repr) && fresh(multHists.Repr)
      ensures events == [] && Accumulated()
    {
      cfg := config;
      matched := new MatchedTables(config);
      sim := new SimTables(config);
      charged := new ChargedHadronTables(config);
      multHists := new MultiplicityHistograms(config);
      events := [];
    }

    /** Tables holding the fills of a run are consistent. */
    lemma AccumulatedIsConsistent()
      requires Valid() && Accumulated()
      ensures Consistent()
    {
      matched.HoldIsConsistent(events);
      sim.HoldIsConsistent(events);
      charged.HoldIsConsistent(events);
    }

    /** The three loops of one event over its tracks: the matches, the
        simulated tracks and the vertex tracks, in that order. */
    method FillTracks(ghost evs: seq<Event>, ev: Event, mult: int) returns (matchedGood: nat)
      requires Valid() && ValidEvent(ev)
      requires matched.Hold(evs) && sim.Hold(evs) && charged.Hold(evs)
      requires mult == EventMultiplicity(cfg.selection, ev)
      modifies matched.Repr, sim.Repr, charged.Repr
      ensures matched.Hold(evs + [ev]) && sim.Hold(evs + [ev]) && charged.Hold(evs + [ev])
      ensures matchedGood == GoodMatches(cfg.selection, ev, |ev.matches|)
    {
      matchedGood := matched.FillMatched(evs, ev, mult);
      sim.FillSim(evs, ev, mult);
      charged.FillChargedHadrons(evs, ev);
    }

    /** One event: the multiplicity of good vertex tracks and its
        histograms, then the three loops over its tracks. Afterwards every
        table holds the fills of the run extended by the event. Returns the
        two numbers the event report prints: the multiplicity and how many
        matches have a good vertex track. */
    method UserExec(ev: Event) returns (multiplicity: nat, matchedGood: nat)
      requires Valid() && Accumulated() && ValidEvent(ev)
      modifies this, matched.Repr, sim.Repr, charged.Repr, multHists.Repr
      ensures Accumulated()
      ensures events == old(events) + [ev]
      ensures multiplicity == EventMultiplicity(cfg.selection, ev)
      ensures matchedGood == GoodMatches(cfg.selection, ev, |ev.matches|)
      ensures matchedGood <= multiplicity <= |ev.vtx|
    {
      ghost var evs := events;
      multiplicity := CountMultiplicity(cfg.selection, ev);
      multHists.FillMultiplicity(evs, ev, multiplicity);
      matchedGood := FillTracks(evs, ev, multiplicity);
      events := evs + [ev];
      GoodMatchesAtMostMultiplicity(cfg.selection, ev);
      MultiplicityAtMostTracks(cfg.selection, ev.vtx, |ev.vtx|);
    }

    /** Every numerator cell is within its denominator cell, as the
        (y_cm, pT) and (multiplicity, y_cm, pT) efficiencies built from the
        two histograms require. */
    ghost predicate Cleaned()
      requires Valid()
      reads matched.Repr, sim.Repr
    {
      (forall s, c :: 0 <= s < |Species| && 0 <= c < cfg.binning.nYPt ==>
        matched.matchedYPt[s, c] <= sim.simYPt[s, c]) &&
      (forall s, c :: 0 <= s < |Species| && 0 <= c < cfg.binning.nCentrYPt ==>
        matched.matchedCentrYPt[s, c] <= sim.simCentrYPt[s, c])
    }

    /** The end of the run: the bin clean-up of both histogram pairs of
        every species, applied to the run totals; afterwards every ratio of
        matched over simulated tracks that is defined lies in [0, 1]. */
    method UserFinish()
      requires Valid() && Accumulated()
      modifies matched.matchedYPt, matched.matchedCentrYPt, sim.simYPt, sim.simCentrYPt
      ensures Cleaned()
      ensures forall s, c :: 0 <= s < |Species| && 0 <= c < cfg.binning.nYPt ==>
        CellPair(matched.matchedYPt[s, c], sim.simYPt[s, c]) ==
        CleanUp(CellPair(RunMatched(cfg, events, YPt, s, c, false), RunSim(cfg, events, YPt, s, c, false)))
      ensures forall s, c :: 0 <= s < |Species| && 0 <= c < cfg.binning.nCentrYPt ==>
        CellPair(matched.matchedCentrYPt[s, c], sim.simCentrYPt[s, c]) ==
        CleanUp(CellPair(RunMatched(cfg, events, CentrYPt, s, c, false), RunSim(cfg, events, CentrYPt, s, c, false)))
      ensures forall s, c :: 0 <= s < |Species| && 0 <= c < cfg.binning.nYPt ==>
        RatioInUnitInterval(CellPair(matched.matchedYPt[s, c], sim.simYPt[s, c]))
      ensures forall s, c :: 0 <= s < |Species| && 0 <= c < cfg.binning.nCentrYPt ==>
        RatioInUnitInterval(CellPair(matched.matchedCentrYPt[s, c], sim.simCentrYPt[s, c]))
    {
      CleanUpBins(matched.matchedYPt, sim.simYPt);
      CleanUpBins(matched.matchedCentrYPt, sim.simCentrYPt);
    }
  }
}
