/** What the efficiency tables hold after a run of events: for every cell,
    the sum over the events of that event's fills
    (pid_matching/PidMatching.cpp, UserExec called once per event). */
module RunTotals {
  import opened EfficiencyCounts

  /** Every event of the run carries a well-formed matching. */
  predicate AllValid(evs: seq<Event>) {
    forall k :: 0 <= k < |evs| ==> ValidEvent(evs[k])
  }

  /** The multiplicity UserExec computes for an event: its good vertex tracks. */
  function EventMultiplicity(sel: Selection, ev: Event): nat {
    Multiplicity(sel, ev.vtx, |ev.vtx|)
  }

  /** Events of the run whose multiplicity falls in cell c of the fine
      (binned = false) or coarse (binned = true) multiplicity histogram. */
  function RunMultiplicity(cfg: Config, evs: seq<Event>, binned: bool, c: nat): nat
    decreases |evs|
  {
    if evs == [] then 0
    else
      var ev := evs[|evs| - 1];
      var m := EventMultiplicity(cfg.selection, ev);
      var cell := if binned then cfg.binning.cellMultBinned(m) else cfg.binning.cellMult(m);
      RunMultiplicity(cfg, evs[..|evs| - 1], binned, c) + (if cell == c then 1 else 0)
  }

  /** Fills of cell (s, c) of table t by the loops over the matches of the
      whole run. */
  function RunMatched(cfg: Config, evs: seq<Event>, t: Table, s: nat, c: nat, primaryOnly: bool): nat
    requires ValidConfig(cfg) && AllValid(evs)
    decreases |evs|
  {
    if evs == [] then 0
    else
      var ev := evs[|evs| - 1];
      RunMatched(cfg, evs[..|evs| - 1], t, s, c, primaryOnly) +
      MatchedCount(cfg, ev, EventMultiplicity(cfg.selection, ev), |ev.matches|, t, s, c, primaryOnly)
  }

  /** Fills of cell (s, c) of table t by the loops over the simulated
      tracks of the whole run. */
  function RunSim(cfg: Config, evs: seq<Event>, t: Table, s: nat, c: nat, matchedOnly: bool): nat
    requires ValidConfig(cfg) && AllValid(evs)
    decreases |evs|
  {
    if evs == [] then 0
    else
      var ev := evs[|evs| - 1];
      RunSim(cfg, evs[..|evs| - 1], t, s, c, matchedOnly) +
      SimCount(cfg, ev, EventMultiplicity(cfg.selection, ev), |ev.sim|, t, s, c, matchedOnly)
  }

  /** Fills of cell c of the charged-hadron table of class cls by the loops
      over the vertex tracks of the whole run. */
  function RunCharged(cfg: Config, evs: seq<Event>, cls: ChargeClass, c: nat, matchedOnly: bool): nat
    requires ValidConfig(cfg)
    decreases |evs|
  {
    if evs == [] then 0
    else
      var ev := evs[|evs| - 1];
      RunCharged(cfg, evs[..|evs| - 1], cls, c, matchedOnly) + ChargedCount(cfg, ev, |ev.vtx|, cls, c, matchedOnly)
  }

  /** Appending an event keeps the run well formed exactly when the event is. */
  lemma AllValidSnoc(evs: seq<Event>, ev: Event)
    ensures AllValid(evs + [ev]) <==> AllValid(evs) && ValidEvent(ev)
    ensures (evs + [ev])[..|evs|] == evs
  {
    if AllValid(evs + [ev]) {
      assert ValidEvent((evs + [ev])[|evs|]);
      forall k | 0 <= k < |evs| ensures ValidEvent(evs[k]) {
        assert evs[k] == (evs + [ev])[k];
      }
    }
  }

  /** Processing one more event adds that event's fills to the matched totals. */
  lemma RunMatchedSnoc(cfg: Config, evs: seq<Event>, ev: Event, t: Table, s: nat, c: nat, primaryOnly: bool)
    requires ValidConfig(cfg) && AllValid(evs) && ValidEvent(ev)
    ensures AllValid(evs + [ev])
    ensures RunMatched(cfg, evs + [ev], t, s, c, primaryOnly) ==
      RunMatched(cfg, evs, t, s, c, primaryOnly) +
      MatchedCount(cfg, ev, EventMultiplicity(cfg.selection, ev), |ev.matches|, t, s, c, primaryOnly)
  {
    AllValidSnoc(evs, ev);
  }

  /** Processing one more event adds that event's fills to the simulated totals. */
  lemma RunSimSnoc(cfg: Config, evs: seq<Event>, ev: Event, t: Table, s: nat, c: nat, matchedOnly: bool)
    requires ValidConfig(cfg) && AllValid(evs) && ValidEvent(ev)
    ensures AllValid(evs + [ev])
    ensures RunSim(cfg, evs + [ev], t, s, c, matchedOnly) ==
      RunSim(cfg, evs, t, s, c, matchedOnly) +
      SimCount(cfg, ev, EventMultiplicity(cfg.selection, ev), |ev.sim|, t, s, c, matchedOnly)
  {
    AllValidSnoc(evs, ev);
  }

  /** Processing one more event adds that event's fills to the charged-hadron totals. */
  lemma RunChargedSnoc(cfg: Config, evs: seq<Event>, ev: Event, cls: ChargeClass, c: nat, matchedOnly: bool)
    requires ValidConfig(cfg)
    ensures RunCharged(cfg, evs + [ev], cls, c, matchedOnly) ==
      RunCharged(cfg, evs, cls, c, matchedOnly) + ChargedCount(cfg, ev, |ev.vtx|, cls, c, matchedOnly)
  {
    AllValidSnoc(evs, ev);
  }

  /** Processing one more event adds one entry, in the cell of its multiplicity. */
  lemma RunMultiplicitySnoc(cfg: Config, evs: seq<Event>, ev: Event, binned: bool, c: nat)
    ensures RunMultiplicity(cfg, evs + [ev], binned, c) ==
      RunMultiplicity(cfg, evs, binned, c) +
      (var m := EventMultiplicity(cfg.selection, ev);
       if (if binned then cfg.binning.cellMultBinned(m) else cfg.binning.cellMult(m)) == c then 1 else 0)
  {
    AllValidSnoc(evs, ev);
  }

  /** A run split in two is well formed exactly when both parts are. */
  lemma AllValidConcat(a: seq<Event>, b: seq<Event>)
    ensures AllValid(a + b) <==> AllValid(a) && AllValid(b)
  {
    if AllValid(a + b) {
      forall k | 0 <= k < |a| ensures ValidEvent(a[k]) {
        assert a[k] == (a + b)[k];
      }
      forall k | 0 <= k < |b| ensures ValidEvent(b[k]) {
        assert b[k] == (a + b)[|a| + k];
      }
    }
  }

  /** The tables are additive over runs: the match-loop fills of two runs
      processed one after the other are the sums of the fills of each. */
  lemma {:induction false} RunMatchedAdditive(cfg: Config, a: seq<Event>, b: seq<Event>, t: Table, s: nat, c: nat, primaryOnly: bool)
    requires ValidConfig(cfg) && AllValid(a) && AllValid(b)
    ensures AllValid(a + b)
    ensures RunMatched(cfg, a + b, t, s, c, primaryOnly) ==
      RunMatched(cfg, a, t, s, c, primaryOnly) + RunMatched(cfg, b, t, s, c, primaryOnly)
    decreases |b|
  {
    AllValidConcat(a, b);
    if b == [] {
      assert a + b == a;
    } else {
      var init := b[..|b| - 1];
      AllValidConcat(init, [b[|b| - 1]]);
      assert b == init + [b[|b| - 1]];
      RunMatchedAdditive(cfg, a, init, t, s, c, primaryOnly);
      assert (a + b)[..|a + b| - 1] == a + init;
    }
  }

  /** The simulated-loop fills are additive over runs. */
  lemma {:induction false} RunSimAdditive(cfg: Config, a: seq<Event>, b: seq<Event>, t: Table, s: nat, c: nat, matchedOnly: bool)
    requires ValidConfig(cfg) && AllValid(a) && AllValid(b)
    ensures AllValid(a + b)
    ensures RunSim(cfg, a + b, t, s, c, matchedOnly) ==
      RunSim(cfg, a, t, s, c, matchedOnly) + RunSim(cfg, b, t, s, c, matchedOnly)
    decreases |b|
  {
    AllValidConcat(a, b);
    if b == [] {
      assert a + b == a;
    } else {
      var init := b[..|b| - 1];
      AllValidConcat(init, [b[|b| - 1]]);
      assert b == init + [b[|b| - 1]];
      RunSimAdditive(cfg, a, init, t, s, c, matchedOnly);
      assert (a + b)[..|a + b| - 1] == a + init;
    }
  }

  /** The vertex-loop fills are additive over runs. */
  lemma {:induction false} RunChargedAdditive(cfg: Config, a: seq<Event>, b: seq<Event>, cls: ChargeClass, c: nat, matchedOnly: bool)
    requires ValidConfig(cfg)
    ensures RunCharged(cfg, a + b, cls, c, matchedOnly) ==
      RunCharged(cfg, a, cls, c, matchedOnly) + RunCharged(cfg, b, cls, c, matchedOnly)
    decreases |b|
  {
    if b == [] {
      assert a + b == a;
    } else {
      var init := b[..|b| - 1];
      RunChargedAdditive(cfg, a, init, cls, c, matchedOnly);
      assert (a + b)[..|a + b| - 1] == a + init;
    }
  }

  /** The multiplicity histograms are additive over runs. */
  lemma {:induction false} RunMultiplicityAdditive(cfg: Config, a: seq<Event>, b: seq<Event>, binned: bool, c: nat)
    ensures RunMultiplicity(cfg, a + b, binned, c) ==
      RunMultiplicity(cfg, a, binned, c) + RunMultiplicity(cfg, b, binned, c)
    decreases |b|
  {
    if b == [] {
      assert a + b == a;
    } else {
      var init := b[..|b| - 1];
      RunMultiplicityAdditive(cfg, a, init, binned, c);
      assert (a + b)[..|a + b| - 1] == a + init;
    }
  }

  /** Over the whole run, the primary fraction never has more passed than
      total entries. */
  lemma {:induction false} RunPrimaryAtMostTotal(cfg: Config, evs: seq<Event>, t: Table, s: nat, c: nat)
    requires ValidConfig(cfg) && AllValid(evs)
    ensures RunMatched(cfg, evs, t, s, c, true) <= RunMatched(cfg, evs, t, s, c, false)
    decreases |evs|
  {
    if evs != [] {
      var ev := evs[|evs| - 1];
      RunPrimaryAtMostTotal(cfg, evs[..|evs| - 1], t, s, c);
      MatchedPrimaryAtMostTotal(cfg, ev, EventMultiplicity(cfg.selection, ev), |ev.matches|, t, s, c);
    }
  }

  /** Over the whole run, the matched-over-simulated efficiency never has
      more passed than total entries. */
  lemma {:induction false} RunSimMatchedAtMostTotal(cfg: Config, evs: seq<Event>, t: Table, s: nat, c: nat)
    requires ValidConfig(cfg) && AllValid(evs)
    ensures RunSim(cfg, evs, t, s, c, true) <= RunSim(cfg, evs, t, s, c, false)
    decreases |evs|
  {
    if evs != [] {
      var ev := evs[|evs| - 1];
      RunSimMatchedAtMostTotal(cfg, evs[..|evs| - 1], t, s, c);
      SimMatchedAtMostTotal(cfg, ev, EventMultiplicity(cfg.selection, ev), |ev.sim|, t, s, c);
    }
  }

  /** Over the whole run, each charged-hadron efficiency keeps passed within
      total, and the negative and positive tables within the all-tracks
      table. */
  lemma {:induction false} RunChargedOrdered(cfg: Config, evs: seq<Event>, c: nat)
    requires ValidConfig(cfg)
    ensures RunCharged(cfg, evs, AllCharges, c, true) <= RunCharged(cfg, evs, AllCharges, c, false)
    ensures RunCharged(cfg, evs, Negative, c, true) <= RunCharged(cfg, evs, Negative, c, false)
    ensures RunCharged(cfg, evs, Positive, c, true) <= RunCharged(cfg, evs, Positive, c, false)
    ensures RunCharged(cfg, evs, Negative, c, false) + RunCharged(cfg, evs, Positive, c, false)
            <= RunCharged(cfg, evs, AllCharges, c, false)
    ensures RunCharged(cfg, evs, Negative, c, true) + RunCharged(cfg, evs, Positive, c, true)
            <= RunCharged(cfg, evs, AllCharges, c, true)
    decreases |evs|
  {
    if evs != [] {
      var ev := evs[|evs| - 1];
      RunChargedOrdered(cfg, evs[..|evs| - 1], c);
      ChargedCountsOrdered(cfg, ev, |ev.vtx|, c);
    }
  }

  /** The number of cells of the fine or coarse multiplicity histogram. */
  function MultiplicityCells(cfg: Config, binned: bool): nat {
    if binned then cfg.binning.nMultBinned else cfg.binning.nMult
  }

  /** Each event adds exactly one entry to each multiplicity histogram, so
      the entries of a histogram over all its cells count the events. */
  lemma {:induction false} RunMultiplicityTotal(cfg: Config, evs: seq<Event>, binned: bool)
    requires ValidConfig(cfg)
    ensures SumCells(cfg, evs, binned, MultiplicityCells(cfg, binned)) == |evs|
    decreases |evs|
  {
    if evs != [] {
      var pre := evs[..|evs| - 1];
      RunMultiplicityTotal(cfg, pre, binned);
      var m := EventMultiplicity(cfg.selection, evs[|evs| - 1]);
      var cell := if binned then cfg.binning.cellMultBinned(m) else cfg.binning.cellMult(m);
      assert cell < MultiplicityCells(cfg, binned);
      SumCellsSnoc(cfg, evs, binned, MultiplicityCells(cfg, binned), cell);
    } else {
      SumCellsNoEvents(cfg, binned, MultiplicityCells(cfg, binned));
    }
  }

  /** The entries of the first n cells of a multiplicity histogram. */
  function SumCells(cfg: Config, evs: seq<Event>, binned: bool, n: nat): nat
  {
    if n == 0 then 0 else SumCells(cfg, evs, binned, n - 1) + RunMultiplicity(cfg, evs, binned, n - 1)
  }

  /** Before any event every cell is empty. */
  lemma {:induction false} SumCellsNoEvents(cfg: Config, binned: bool, n: nat)
    ensures SumCells(cfg, [], binned, n) == 0
  {
    if n > 0 {
      SumCellsNoEvents(cfg, binned, n - 1);
    }
  }

  /** Adding the last event of the run adds one to the sum when its cell is
      among the first n. */
  lemma {:induction false} SumCellsSnoc(cfg: Config, evs: seq<Event>, binned: bool, n: nat, cell: nat)
    requires evs != []
    requires cell == (var m := EventMultiplicity(cfg.selection, evs[|evs| - 1]);
                      if binned then cfg.binning.cellMultBinned(m) else cfg.binning.cellMult(m))
    ensures SumCells(cfg, evs, binned, n) == SumCells(cfg, evs[..|evs| - 1], binned, n) + (if cell < n then 1 else 0)
  {
    if n > 0 {
      SumCellsSnoc(cfg, evs, binned, n - 1, cell);
    }
  }
}
