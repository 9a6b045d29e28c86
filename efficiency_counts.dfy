/** What one event contributes to the efficiency tables of the matching task
    (pid_matching/PidMatching.cpp, UserExec).

    Each function below counts, over a prefix of one of the event's three
    loops, the fills that land in one cell of one table; the task's methods
    are proved to add exactly these counts to their tables. */
module EfficiencyCounts {
  import opened Wrappers
  import opened Kinematics
  import opened Matching
  import VtxTrackCut

  /** A reconstructed (vertex) track. */
  datatype VtxTrack = VtxTrack(quality: VtxTrackCut.TrackQuality, charge: int, p: Momentum)

  /** A simulated track: species code, index of the mother (-1 if primary). */
  datatype SimTrack = SimTrack(pdg: int, motherId: int, p: Momentum)

  datatype Event = Event(vtx: seq<VtxTrack>, sim: seq<SimTrack>, matches: seq<Match>)

  predicate ValidEvent(ev: Event) {
    ValidMatching(ev.matches, |ev.vtx|, |ev.sim|)
  }

  /** The two track selections; their bodies belong to the task variant
      (no cuts, or the standard cuts) and are parameters here. */
  datatype Selection = Selection(goodVtx: VtxTrack -> bool, goodSim: SimTrack -> bool)

  /** The species that get efficiency tables, in the order they are created. */
  const Species: seq<int> := [211, -211, 2212]

  /** Where a species' tables sit, or None when it has none (the lookup of
      the species map). */
  function Slot(pdg: int): (r: Option<nat>)
    ensures r.Some? <==> pdg in Species
    ensures r.Some? ==> r.value < |Species| && Species[r.value] == pdg
  {
    if pdg == 211 then Some(0)
    else if pdg == -211 then Some(1)
    else if pdg == 2212 then Some(2)
    else None
  }

  /** The cell lookup of every table, kept abstract, with the number of cells
      of each table. */
  datatype Binning = Binning(
    nYPt: nat, cellYPt: (real, real) -> nat,
    nCentrYPt: nat, cellCentrYPt: (int, real, real) -> nat,
    nEtaPt: nat, cellEtaPt: (real, real) -> nat,
    nMult: nat, cellMult: int -> nat,
    nMultBinned: nat, cellMultBinned: int -> nat)

  /** Every lookup lands inside its table. */
  ghost predicate ValidBinning(b: Binning) {
    (forall y: real, pt: real :: b.cellYPt(y, pt) < b.nYPt) &&
    (forall m: int, y: real, pt: real :: b.cellCentrYPt(m, y, pt) < b.nCentrYPt) &&
    (forall eta: real, pt: real :: b.cellEtaPt(eta, pt) < b.nEtaPt) &&
    (forall m: int :: b.cellMult(m) < b.nMult) &&
    (forall m: int :: b.cellMultBinned(m) < b.nMultBinned)
  }

  /** The two shapes of per-species table: (y_cm, pT) and
      (multiplicity, y_cm, pT). */
  datatype Table = YPt | CentrYPt

  function TableSize(b: Binning, t: Table): nat {
    match t
    case YPt => b.nYPt
    case CentrYPt => b.nCentrYPt
  }

  function CellOf(b: Binning, t: Table, mult: int, y: real, pt: real): (c: nat)
    requires ValidBinning(b)
    ensures c < TableSize(b, t)
  {
    match t
    case YPt => b.cellYPt(y, pt)
    case CentrYPt => b.cellCentrYPt(mult, y, pt)
  }

  datatype Config = Config(oracles: Oracles, binning: Binning, selection: Selection)

  ghost predicate ValidConfig(cfg: Config) {
    ValidBinning(cfg.binning)
  }

  // ---------------------------------------------------------------------
  // The multiplicity loop

  /** Good vertex tracks among the first k. */
  function Multiplicity(sel: Selection, vtx: seq<VtxTrack>, k: nat): nat
    requires k <= |vtx|
  {
    if k == 0 then 0
    else Multiplicity(sel, vtx, k - 1) + (if sel.goodVtx(vtx[k - 1]) then 1 else 0)
  }

  lemma {:induction false} MultiplicityAtMostTracks(sel: Selection, vtx: seq<VtxTrack>, k: nat)
    requires k <= |vtx|
    ensures Multiplicity(sel, vtx, k) <= k
  {
    if k > 0 {
      MultiplicityAtMostTracks(sel, vtx, k - 1);
    }
  }

  lemma {:induction false} MultiplicityMonotone(sel: Selection, vtx: seq<VtxTrack>, k: nat, n: nat)
    requires k <= n <= |vtx|
    ensures Multiplicity(sel, vtx, k) <= Multiplicity(sel, vtx, n)
  {
    if k < n {
      MultiplicityMonotone(sel, vtx, k, n - 1);
    }
  }

  // ---------------------------------------------------------------------
  // The loop over the matches

  function MatchedVtx(ev: Event, j: nat): VtxTrack
    requires ValidEvent(ev) && j < |ev.matches|
  {
    ev.vtx[ev.matches[j].vtxId]
  }

  function MatchedSim(ev: Event, j: nat): SimTrack
    requires ValidEvent(ev) && j < |ev.matches|
  {
    ev.sim[ev.matches[j].simId]
  }

  /** Match j's vertex track passes the vertex cut. */
  predicate IsGoodMatch(sel: Selection, ev: Event, j: nat)
    requires ValidEvent(ev) && j < |ev.matches|
  {
    sel.goodVtx(MatchedVtx(ev, j))
  }

  /** Good matches among the first k (the counter of matched good tracks). */
  function GoodMatches(sel: Selection, ev: Event, k: nat): nat
    requires ValidEvent(ev) && k <= |ev.matches|
  {
    if k == 0 then 0
    else GoodMatches(sel, ev, k - 1) + (if IsGoodMatch(sel, ev, k - 1) then 1 else 0)
  }

  /** Match j fills the numerator tables of slot s: its vertex track is good
      and its simulated track belongs to the species of slot s. */
  predicate FillsMatched(cfg: Config, ev: Event, j: nat, s: nat)
    requires ValidEvent(ev) && j < |ev.matches|
  {
    IsGoodMatch(cfg.selection, ev, j) && Slot(MatchedSim(ev, j).pdg) == Some(s)
  }

  /** The cell of table t hit by match j: the vertex momentum taken with the
      mass of the matched simulated species. */
  function MatchedCell(cfg: Config, ev: Event, mult: int, j: nat, t: Table): (c: nat)
    requires ValidConfig(cfg) && ValidEvent(ev) && j < |ev.matches|
    ensures c < TableSize(cfg.binning, t)
  {
    var o := cfg.oracles;
    var p := MatchedVtx(ev, j).p;
    CellOf(cfg.binning, t, mult, YCm(o, p, o.mass(MatchedSim(ev, j).pdg)), o.pt(p))
  }

  /** Whether match j fills cell (s, c) of table t; with primaryOnly, only
      when its simulated track is primary. */
  function MatchedHit(cfg: Config, ev: Event, mult: int, j: nat, t: Table, s: nat, c: nat, primaryOnly: bool): nat
    requires ValidConfig(cfg) && ValidEvent(ev) && j < |ev.matches|
  {
    if FillsMatched(cfg, ev, j, s) && MatchedCell(cfg, ev, mult, j, t) == c &&
       (!primaryOnly || MatchedSim(ev, j).motherId == -1)
    then 1 else 0
  }

  /** Fills into cell (s, c) of table t among the first k matches. */
  function MatchedCount(cfg: Config, ev: Event, mult: int, k: nat, t: Table, s: nat, c: nat, primaryOnly: bool): nat
    requires ValidConfig(cfg) && ValidEvent(ev) && k <= |ev.matches|
  {
    if k == 0 then 0
    else MatchedCount(cfg, ev, mult, k - 1, t, s, c, primaryOnly) + MatchedHit(cfg, ev, mult, k - 1, t, s, c, primaryOnly)
  }

  /** Good matches among the first k never outnumber the good vertex tracks
      up to the last matched index: vertex indices of the matches strictly
      increase, so each good track is counted at most once. */
  lemma {:induction false} GoodMatchesBelowIndex(sel: Selection, ev: Event, k: nat)
    requires ValidEvent(ev) && 0 < k <= |ev.matches|
    ensures GoodMatches(sel, ev, k) <= Multiplicity(sel, ev.vtx, ev.matches[k - 1].vtxId + 1)
  {
    var d := ev.matches[k - 1].vtxId;
    if k == 1 {
      MultiplicityMonotone(sel, ev.vtx, 0, d);
    } else {
      GoodMatchesBelowIndex(sel, ev, k - 1);
      MultiplicityMonotone(sel, ev.vtx, ev.matches[k - 2].vtxId + 1, d);
    }
  }

  /** The number of matched good vertex tracks never exceeds the
      multiplicity. */
  lemma GoodMatchesAtMostMultiplicity(sel: Selection, ev: Event)
    requires ValidEvent(ev)
    ensures GoodMatches(sel, ev, |ev.matches|) <= Multiplicity(sel, ev.vtx, |ev.vtx|)
  {
    var n := |ev.matches|;
    if n > 0 {
      GoodMatchesBelowIndex(sel, ev, n);
      MultiplicityMonotone(sel, ev.vtx, ev.matches[n - 1].vtxId + 1, |ev.vtx|);
    }
  }

  /** Primary fills of the primary-fraction table never exceed its total. */
  lemma {:induction false} MatchedPrimaryAtMostTotal(cfg: Config, ev: Event, mult: int, k: nat, t: Table, s: nat, c: nat)
    requires ValidConfig(cfg) && ValidEvent(ev) && k <= |ev.matches|
    ensures MatchedCount(cfg, ev, mult, k, t, s, c, true) <= MatchedCount(cfg, ev, mult, k, t, s, c, false)
  {
    if k > 0 {
      MatchedPrimaryAtMostTotal(cfg, ev, mult, k - 1, t, s, c);
    }
  }

  /** Numerator fills of one slot never exceed the good matches. */
  lemma {:induction false} MatchedAtMostGoodMatches(cfg: Config, ev: Event, mult: int, k: nat, t: Table, s: nat, c: nat)
    requires ValidConfig(cfg) && ValidEvent(ev) && k <= |ev.matches|
    ensures MatchedCount(cfg, ev, mult, k, t, s, c, false) <= GoodMatches(cfg.selection, ev, k)
  {
    if k > 0 {
      MatchedAtMostGoodMatches(cfg, ev, mult, k - 1, t, s, c);
    }
  }

  // ---------------------------------------------------------------------
  // The loop over the simulated tracks

  /** Simulated track i has an inverse match whose vertex track is good. */
  predicate HasMatchedGoodVtx(sel: Selection, ev: Event, i: nat)
    requires ValidEvent(ev) && i < |ev.sim|
  {
    var inv := Inverse(ev.matches);
    i in inv &&
    (InverseInRange(ev.matches, |ev.vtx|, |ev.sim|, i); sel.goodVtx(ev.vtx[inv[i]]))
  }

  /** The inverse-map test agrees with the matching itself: the simulated
      track counts as matched exactly when some pair matches it to a good
      vertex track. */
  lemma HasMatchedGoodVtxMeans(sel: Selection, ev: Event, i: nat)
    requires ValidEvent(ev) && i < |ev.sim|
    ensures HasMatchedGoodVtx(sel, ev, i) <==>
      exists d :: 0 <= d < |ev.vtx| && Matched(ev.matches, d, i) && sel.goodVtx(ev.vtx[d])
  {
    var inv := Inverse(ev.matches);
    if HasMatchedGoodVtx(sel, ev, i) {
      InverseInRange(ev.matches, |ev.vtx|, |ev.sim|, i);
      InverseHolds(ev.matches, |ev.vtx|, |ev.sim|, inv[i], i);
    }
    if exists d :: 0 <= d < |ev.vtx| && Matched(ev.matches, d, i) && sel.goodVtx(ev.vtx[d]) {
      var d :| 0 <= d < |ev.vtx| && Matched(ev.matches, d, i) && sel.goodVtx(ev.vtx[d]);
      InverseHolds(ev.matches, |ev.vtx|, |ev.sim|, d, i);
    }
  }

  /** Simulated track i fills the denominator tables of slot s. */
  predicate FillsSim(cfg: Config, ev: Event, i: nat, s: nat)
    requires i < |ev.sim|
  {
    cfg.selection.goodSim(ev.sim[i]) && Slot(ev.sim[i].pdg) == Some(s)
  }

  function SimCell(cfg: Config, ev: Event, mult: int, i: nat, t: Table): (c: nat)
    requires ValidConfig(cfg) && i < |ev.sim|
    ensures c < TableSize(cfg.binning, t)
  {
    var o := cfg.oracles;
    var p := ev.sim[i].p;
    CellOf(cfg.binning, t, mult, YCm(o, p, o.mass(ev.sim[i].pdg)), o.pt(p))
  }

  /** Whether simulated track i fills cell (s, c) of table t; with
      matchedOnly, only when it has a good matched vertex track. */
  function SimHit(cfg: Config, ev: Event, mult: int, i: nat, t: Table, s: nat, c: nat, matchedOnly: bool): nat
    requires ValidConfig(cfg) && ValidEvent(ev) && i < |ev.sim|
  {
    if FillsSim(cfg, ev, i, s) && SimCell(cfg, ev, mult, i, t) == c &&
       (!matchedOnly || HasMatchedGoodVtx(cfg.selection, ev, i))
    then 1 else 0
  }

  /** Fills into cell (s, c) of table t among the first k simulated tracks. */
  function SimCount(cfg: Config, ev: Event, mult: int, k: nat, t: Table, s: nat, c: nat, matchedOnly: bool): nat
    requires ValidConfig(cfg) && ValidEvent(ev) && k <= |ev.sim|
  {
    if k == 0 then 0
    else SimCount(cfg, ev, mult, k - 1, t, s, c, matchedOnly) + SimHit(cfg, ev, mult, k - 1, t, s, c, matchedOnly)
  }

  /** In the matched-over-simulated efficiency, passed never exceeds total. */
  lemma {:induction false} SimMatchedAtMostTotal(cfg: Config, ev: Event, mult: int, k: nat, t: Table, s: nat, c: nat)
    requires ValidConfig(cfg) && ValidEvent(ev) && k <= |ev.sim|
    ensures SimCount(cfg, ev, mult, k, t, s, c, true) <= SimCount(cfg, ev, mult, k, t, s, c, false)
  {
    if k > 0 {
      SimMatchedAtMostTotal(cfg, ev, mult, k - 1, t, s, c);
    }
  }

  // ---------------------------------------------------------------------
  // The loop over the vertex tracks (charged hadrons)

  /** Which of the three charged-hadron tables: all tracks, negative, positive. */
  datatype ChargeClass = AllCharges | Negative | Positive

  predicate InClass(q: int, cls: ChargeClass) {
    match cls
    case AllCharges => true
    case Negative => q < 0
    case Positive => q > 0
  }

  /** Vertex track i has a forward match. */
  predicate HasMatchedSim(ev: Event, i: nat) {
    i in Forward(ev.matches)
  }

  function ChargedCell(cfg: Config, ev: Event, i: nat): (c: nat)
    requires ValidConfig(cfg) && i < |ev.vtx|
    ensures c < cfg.binning.nEtaPt
  {
    var p := ev.vtx[i].p;
    var eta: real := cfg.oracles.eta(p);
    var pt: real := cfg.oracles.pt(p);
    cfg.binning.cellEtaPt(eta, pt)
  }

  /** Whether vertex track i fills cell c of the charged-hadron table of
      class cls; with matchedOnly, only when it has a forward match. */
  function ChargedHit(cfg: Config, ev: Event, i: nat, cls: ChargeClass, c: nat, matchedOnly: bool): nat
    requires ValidConfig(cfg) && i < |ev.vtx|
  {
    if cfg.selection.goodVtx(ev.vtx[i]) && InClass(ev.vtx[i].charge, cls) &&
       ChargedCell(cfg, ev, i) == c && (!matchedOnly || HasMatchedSim(ev, i))
    then 1 else 0
  }

  /** Fills into cell c of the charged-hadron table of class cls among the
      first k vertex tracks. */
  function ChargedCount(cfg: Config, ev: Event, k: nat, cls: ChargeClass, c: nat, matchedOnly: bool): nat
    requires ValidConfig(cfg) && k <= |ev.vtx|
  {
    if k == 0 then 0
    else ChargedCount(cfg, ev, k - 1, cls, c, matchedOnly) + ChargedHit(cfg, ev, k - 1, cls, c, matchedOnly)
  }

  /** The forward-map test agrees with the matching itself. */
  lemma HasMatchedSimMeans(ev: Event, i: nat)
    requires ValidEvent(ev)
    ensures HasMatchedSim(ev, i) <==> exists s :: 0 <= s < |ev.sim| && Matched(ev.matches, i, s)
  {
    if HasMatchedSim(ev, i) {
      ForwardHolds(ev.matches, |ev.vtx|, |ev.sim|, i, Forward(ev.matches)[i]);
    }
    if exists s :: 0 <= s < |ev.sim| && Matched(ev.matches, i, s) {
      var s :| 0 <= s < |ev.sim| && Matched(ev.matches, i, s);
      ForwardHolds(ev.matches, |ev.vtx|, |ev.sim|, i, s);
    }
  }

  /** The negative and positive tables together never hold more than the
      all-tracks table (tracks of charge zero go to neither). */
  lemma {:induction false} ChargeSplit(cfg: Config, ev: Event, k: nat, c: nat, matchedOnly: bool)
    requires ValidConfig(cfg) && k <= |ev.vtx|
    ensures ChargedCount(cfg, ev, k, Negative, c, matchedOnly) + ChargedCount(cfg, ev, k, Positive, c, matchedOnly)
            <= ChargedCount(cfg, ev, k, AllCharges, c, matchedOnly)
  {
    if k > 0 {
      ChargeSplit(cfg, ev, k - 1, c, matchedOnly);
    }
  }

  /** Passed never exceeds total in the charged-hadron tables. */
  lemma {:induction false} ChargedMatchedAtMostTotal(cfg: Config, ev: Event, k: nat, cls: ChargeClass, c: nat)
    requires ValidConfig(cfg) && k <= |ev.vtx|
    ensures ChargedCount(cfg, ev, k, cls, c, true) <= ChargedCount(cfg, ev, k, cls, c, false)
  {
    if k > 0 {
      ChargedMatchedAtMostTotal(cfg, ev, k - 1, cls, c);
    }
  }

  /** The orderings every charged-hadron cell keeps: matched within total
      for each class, and the two charge signs within all tracks. */
  lemma ChargedCountsOrdered(cfg: Config, ev: Event, k: nat, c: nat)
    requires ValidConfig(cfg) && k <= |ev.vtx|
    ensures ChargedCount(cfg, ev, k, AllCharges, c, true) <= ChargedCount(cfg, ev, k, AllCharges, c, false)
    ensures ChargedCount(cfg, ev, k, Negative, c, true) <= ChargedCount(cfg, ev, k, Negative, c, false)
    ensures ChargedCount(cfg, ev, k, Positive, c, true) <= ChargedCount(cfg, ev, k, Positive, c, false)
    ensures ChargedCount(cfg, ev, k, Negative, c, false) + ChargedCount(cfg, ev, k, Positive, c, false)
            <= ChargedCount(cfg, ev, k, AllCharges, c, false)
    ensures ChargedCount(cfg, ev, k, Negative, c, true) + ChargedCount(cfg, ev, k, Positive, c, true)
            <= ChargedCount(cfg, ev, k, AllCharges, c, true)
  {
    ChargedMatchedAtMostTotal(cfg, ev, k, AllCharges, c);
    ChargedMatchedAtMostTotal(cfg, ev, k, Negative, c);
    ChargedMatchedAtMostTotal(cfg, ev, k, Positive, c);
    ChargeSplit(cfg, ev, k, c, false);
    ChargeSplit(cfg, ev, k, c, true);
  }
}
