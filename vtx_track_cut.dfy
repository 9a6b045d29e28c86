/** The vertex-track quality cut of commons/VtxTrackCut.hpp.

    A cut is a record of six constant thresholds; a track is judged on its
    hit counts in the three TPCs, the corresponding numbers of potential
    hits, and its distances of closest approach to the primary vertex.
    Floating-point thresholds and DCAs are modelled as reals. */
module VtxTrackCut {

  /** The thresholds of one cut (the struct's const fields). */
  datatype Cut = Cut(
    dcaxMax: real,
    dcayMax: real,
    nhitsVtpcMin: int,
    nhitsTotalMin: int,
    ratioMin: real,
    ratioMax: real)

  /** The eight track fields the cut reads. */
  datatype TrackQuality = TrackQuality(
    nhitsVtpc1: int,
    nhitsVtpc2: int,
    nhitsMtpc: int,
    nhitsPotVtpc1: int,
    nhitsPotVtpc2: int,
    nhitsPotMtpc: int,
    dcax: real,
    dcay: real)

  /** The cut built for the matching task (2 cm, 1 cm, 15, 30, 0.55, 1.10). */
  function StandardCut(): Cut {
    Cut(2.0, 1.0, 15, 30, 0.55, 1.10)
  }

  function Abs(x: real): real {
    if x < 0.0 then -x else x
  }

  /** Hits in VTPC1, VTPC2 and MTPC together. */
  function NhitsTotal(t: TrackQuality): int {
    t.nhitsVtpc1 + t.nhitsVtpc2 + t.nhitsMtpc
  }

  /** Hits in the two vertex TPCs. */
  function NhitsVtpc(t: TrackQuality): int {
    t.nhitsVtpc1 + t.nhitsVtpc2
  }

  /** Potential hits in the three TPCs together. */
  function NhitsPotTotal(t: TrackQuality): int {
    t.nhitsPotVtpc1 + t.nhitsPotVtpc2 + t.nhitsPotMtpc
  }

  /** For a positive denominator, a quotient lies strictly above (below) a
      bound exactly when the numerator lies strictly above (below) the bound
      times the denominator. */
  lemma QuotientBounds(num: real, den: real, bound: real)
    requires den > 0.0
    ensures num / den > bound <==> num > bound * den
    ensures num / den < bound <==> num < bound * den
  {
    assert num == (num / den) * den;
    if num / den > bound {
      assert (num / den - bound) * den > 0.0;
    }
    if num > bound * den {
      assert (num / den - bound) * den > 0.0;
    }
    if num / den < bound {
      assert (bound - num / den) * den > 0.0;
    }
    if num < bound * den {
      assert (bound - num / den) * den > 0.0;
    }
  }

  /** The cut of CheckVtxTrack. The source computes the hit ratio before the
      conjunction, but the conjunction tests the potential-hit total before
      comparing the ratio, so the ratio is only needed when it is defined.
      The result is accepted exactly when all five conditions hold; the ratio
      window is stated here without a division. */
  predicate CheckVtxTrack(cut: Cut, t: TrackQuality): (ok: bool)
    ensures ok <==>
      NhitsTotal(t) >= cut.nhitsTotalMin &&
      NhitsVtpc(t) > cut.nhitsVtpcMin &&
      NhitsPotTotal(t) > 0 &&
      cut.ratioMin * (NhitsPotTotal(t) as real) < NhitsTotal(t) as real &&
      NhitsTotal(t) as real < cut.ratioMax * (NhitsPotTotal(t) as real) &&
      Abs(t.dcax) < cut.dcaxMax &&
      Abs(t.dcay) < cut.dcayMax
  {
    var total := NhitsTotal(t);
    var pot := NhitsPotTotal(t);
    if pot > 0 then
      QuotientBounds(total as real, pot as real, cut.ratioMin);
      QuotientBounds(total as real, pot as real, cut.ratioMax);
      var ratio := (total as real) / (pot as real);
      total >= cut.nhitsTotalMin &&
      NhitsVtpc(t) > cut.nhitsVtpcMin &&
      ratio > cut.ratioMin &&
      ratio < cut.ratioMax &&
      Abs(t.dcax) < cut.dcaxMax &&
      Abs(t.dcay) < cut.dcayMax
    else
      false
  }

  /** A track without potential hits is rejected whatever its other fields. */
  lemma RejectsWithoutPotentialHits(cut: Cut, t: TrackQuality)
    requires t.nhitsPotVtpc1 + t.nhitsPotVtpc2 + t.nhitsPotMtpc <= 0
    ensures !CheckVtxTrack(cut, t)
  {
  }

  /** An accepted track has a hit ratio strictly inside the cut's window. */
  lemma AcceptedRatioInWindow(cut: Cut, t: TrackQuality)
    requires CheckVtxTrack(cut, t)
    ensures NhitsPotTotal(t) > 0
    ensures cut.ratioMin < (NhitsTotal(t) as real) / (NhitsPotTotal(t) as real) < cut.ratioMax
  {
    QuotientBounds(NhitsTotal(t) as real, NhitsPotTotal(t) as real, cut.ratioMin);
    QuotientBounds(NhitsTotal(t) as real, NhitsPotTotal(t) as real, cut.ratioMax);
  }

  /** A track with 10/10/15 hits out of 12/12/16 potential ones (ratio 35/40)
      and DCAs 0.5 and 0.2 passes the standard cut. */
  lemma StandardCutAcceptsReferenceTrack()
    ensures CheckVtxTrack(StandardCut(), TrackQuality(10, 10, 15, 12, 12, 16, 0.5, 0.2))
  {
  }
}
