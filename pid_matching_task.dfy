/** The value-level parts of the matching task of
    pid_matching/PidMatching.cpp: the names of the directories it writes,
    the edge builder of its histogram axes, the weight rule of its
    validation pass and the clean-up rule applied to every cell at the end
    of the run. */
module PidMatchingTask {
  import opened Wrappers
  import IntText
  import VtxTrackCut

  // ---------------------------------------------------------------------
  // Table layout written by the task

  /** Name of the output directory of one species' tables. */
  function EfficiencyDirName(pdg: int): string {
    "efficiency_" + IntText.FormatInt(pdg)
  }

  /** Name under which the (multiplicity, y_cm, pT) ratio table is written. */
  const VtxSimCentrYPtName: string := "vtx_sim_centr_y_pt"

  // ---------------------------------------------------------------------
  // Axis edges

  /** Edge i of nb equal bins over [lo, hi]; the last edge is hi itself. */
  function Edge(nb: nat, lo: real, hi: real, i: nat): real
    requires i <= nb
  {
    if i == nb then hi else lo + (i as real) * ((hi - lo) / (nb as real))
  }

  /** The edges of the linspace helper: nb + 1 values, lo + i * step below
      nb and exactly hi at nb. */
  method Linspace(nb: nat, lo: real, hi: real) returns (edges: array<real>)
    ensures fresh(edges) && edges.Length == nb + 1
    ensures forall i :: 0 <= i <= nb ==> edges[i] == Edge(nb, lo, hi, i)
  {
    edges := new real[nb + 1];
    // with no bins the step is never used (the source divides by zero)
    var step := if nb == 0 then 0.0 else (hi - lo) / (nb as real);
    var i := 0;
    while i < nb
      invariant 0 <= i <= nb
      invariant forall k :: 0 <= k < i ==> edges[k] == Edge(nb, lo, hi, k)
    {
      edges[i] := lo + (i as real) * step;
      i := i + 1;
    }
    edges[nb] := hi;
  }

  /** The edges start at lo and strictly increase when hi > lo. */
  lemma EdgesIncrease(nb: nat, lo: real, hi: real, i: nat, j: nat)
    requires 0 < nb && lo < hi && i < j <= nb
    ensures Edge(nb, lo, hi, 0) == lo
    ensures Edge(nb, lo, hi, i) < Edge(nb, lo, hi, j)
  {
    var step := (hi - lo) / (nb as real);
    assert step > 0.0;
    assert step * (nb as real) == hi - lo;
    if j < nb {
      assert (j as real) * step - (i as real) * step == ((j - i) as real) * step;
      assert ((j - i) as real) * step > 0.0;
    } else {
      assert (nb as real) * step - (i as real) * step == ((nb - i) as real) * step;
      assert ((nb - i) as real) * step > 0.0;
    }
  }

  /** The multiplicity axis, six bins over [0, 300], has edges 0, 50, ..., 300. */
  lemma MultiplicityAxisEdges(i: nat)
    requires i <= 6
    ensures Edge(6, 0.0, 300.0, i) == 50.0 * (i as real)
  {
  }

  // ---------------------------------------------------------------------
  // The validation weight

  /** Inverse efficiency, dropped to zero when it reaches 100. An efficiency
      of zero gives an infinite inverse in the source, hence zero. */
  function ValidationWeight(eff: real): (w: real)
    ensures eff >= 0.0 ==> w >= 0.0
    ensures 0.0 <= eff <= 0.01 ==> w == 0.0
    ensures eff > 0.01 ==> w * eff == 1.0 && 0.0 < w < 100.0
  {
    if eff == 0.0 then 0.0
    else
      var inv := 1.0 / eff;
      if eff > 0.0 then
        VtxTrackCut.QuotientBounds(1.0, eff, 100.0);
        if inv < 100.0 then inv else 0.0
      else
        if inv < 100.0 then inv else 0.0
  }

  // ---------------------------------------------------------------------
  // The end-of-run clean-up

  /** One cell of a numerator (matched) / denominator (simulated) pair. */
  datatype CellPair = CellPair(matched: int, sim: int)

  /** A cell with more matched than simulated entries is emptied, not clamped. */
  function CleanUp(c: CellPair): CellPair {
    if c.matched > c.sim then CellPair(0, 0) else c
  }

  /** After clean-up matched never exceeds simulated; cells that already
      satisfied this are untouched, the others become 0/0; non-negative
      cells stay non-negative; and a second clean-up changes nothing. */
  lemma CleanUpProperties(c: CellPair)
    ensures CleanUp(c).matched <= CleanUp(c).sim
    ensures c.matched <= c.sim ==> CleanUp(c) == c
    ensures c.matched > c.sim ==> CleanUp(c) == CellPair(0, 0)
    ensures 0 <= c.matched && 0 <= c.sim ==> 0 <= CleanUp(c).matched && 0 <= CleanUp(c).sim
    ensures CleanUp(CleanUp(c)) == CleanUp(c)
  {
  }

  /** The matched-over-simulated ratio of a cell; no value for an empty
      denominator. */
  function Ratio(c: CellPair): Option<real> {
    if c.sim == 0 then None else Some((c.matched as real) / (c.sim as real))
  }

  /** The ratio, where defined, is a fraction. */
  predicate RatioInUnitInterval(c: CellPair) {
    Ratio(c).Some? ==> 0.0 <= Ratio(c).value <= 1.0
  }

  /** Every ratio defined after the clean-up of a non-negative cell lies in [0, 1]. */
  lemma CleanedRatioInUnitInterval(c: CellPair)
    requires 0 <= c.matched && 0 <= c.sim
    ensures RatioInUnitInterval(CleanUp(c))
  {
    var d := CleanUp(c);
    if d.sim != 0 {
      VtxTrackCut.QuotientBounds(d.matched as real, d.sim as real, 0.0);
      VtxTrackCut.QuotientBounds(d.matched as real, d.sim as real, 1.0);
    }
  }

  /** The clean-up loop over all cells of one numerator/denominator pair.
      Afterwards every cell of histograms that count has matched within
      simulated, and so a ratio in [0, 1] wherever one is defined. */
  method CleanUpBins(matched: array2<int>, sim: array2<int>)
    requires matched != sim
    requires matched.Length0 == sim.Length0 && matched.Length1 == sim.Length1
    modifies matched, sim
    ensures forall s, c :: 0 <= s < matched.Length0 && 0 <= c < matched.Length1 ==>
      CellPair(matched[s, c], sim[s, c]) == CleanUp(CellPair(old(matched[s, c]), old(sim[s, c])))
    ensures forall s, c :: 0 <= s < matched.Length0 && 0 <= c < matched.Length1 ==>
      matched[s, c] <= sim[s, c]
    ensures forall s, c ::
      0 <= s < matched.Length0 && 0 <= c < matched.Length1 && 0 <= old(matched[s, c]) && 0 <= old(sim[s, c]) ==>
      0 <= matched[s, c] && RatioInUnitInterval(CellPair(matched[s, c], sim[s, c]))
  {
    var s := 0;
    while s < matched.Length0
      invariant 0 <= s <= matched.Length0
      invariant forall s', c :: 0 <= s' < s && 0 <= c < matched.Length1 ==>
        CellPair(matched[s', c], sim[s', c]) == CleanUp(CellPair(old(matched[s', c]), old(sim[s', c])))
      invariant forall s', c :: s <= s' < matched.Length0 && 0 <= c < matched.Length1 ==>
        matched[s', c] == old(matched[s', c]) && sim[s', c] == old(sim[s', c])
    {
      var c := 0;
      while c < matched.Length1
        invariant 0 <= c <= matched.Length1
        invariant forall s', c' :: 0 <= s' < s && 0 <= c' < matched.Length1 ==>
          CellPair(matched[s', c'], sim[s', c']) == CleanUp(CellPair(old(matched[s', c']), old(sim[s', c'])))
        invariant forall c' :: 0 <= c' < c ==>
          CellPair(matched[s, c'], sim[s, c']) == CleanUp(CellPair(old(matched[s, c']), old(sim[s, c'])))
        invariant forall s', c' :: s <= s' < matched.Length0 && 0 <= c' < matched.Length1 && (s' > s || c' >= c) ==>
          matched[s', c'] == old(matched[s', c']) && sim[s', c'] == old(sim[s', c'])
      {
        if matched[s, c] > sim[s, c] {
          matched[s, c] := 0;
          sim[s, c] := 0;
        }
        c := c + 1;
      }
      s := s + 1;
    }
    forall s, c | 0 <= s < matched.Length0 && 0 <= c < matched.Length1
      ensures matched[s, c] <= sim[s, c]
      ensures 0 <= old(matched[s, c]) && 0 <= old(sim[s, c]) ==>
        0 <= matched[s, c] && RatioInUnitInterval(CellPair(matched[s, c], sim[s, c]))
    {
      var before := CellPair(old(matched[s, c]), old(sim[s, c]));
      CleanUpProperties(before);
      if 0 <= before.matched && 0 <= before.sim {
        CleanedRatioInUnitInterval(before);
      }
    }
  }
}
