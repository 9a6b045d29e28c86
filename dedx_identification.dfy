/** The identification step of pid_dedx/PiddEdx.cpp: every vertex track is
    shown to a particle-identification getter together with its signed
    momentum and its energy loss, and becomes an identified particle when
    the getter names a species for it.

    The getter is a foreign object read from a file; it enters the model as
    an opaque function of (charge times momentum, dE/dx, purity). Single-
    precision quotients are reals; a quotient whose denominator is zero is
    not a finite number in the source and None here. */
module DedxIdentification {
  import opened Wrappers
  import opened Kinematics
  import VtxTrackCut

  /** The species code the getter answers when it identifies nothing. */
  const Unidentified: int := -1

  /** The purity the getter is asked for. */
  const Purity: real := 0.9

  /** The particle-identification getter. */
  datatype Getter = Getter(getPid: (real, real, real) -> int)

  /** The fields of an input vertex track that the step reads. */
  datatype Track = Track(
    momentum: Momentum,
    charge: int,
    dedx: real,
    chi2: real,
    ndf: int,
    quality: VtxTrackCut.TrackQuality)   // hit counts and DCAs

  /** An output particle with the fields the step writes. */
  datatype RecParticle = RecParticle(
    momentum: Momentum,
    pid: int,
    mass: real,
    y: real,
    yCm: real,
    dcax: real,
    dcay: real,
    chi2Ndf: Option<real>,
    nhitsTotal: int,
    nhitsVtpc: int,
    nhitsPotTotal: int,
    nhitsRatio: Option<real>)

  /** A quotient of reals; None where the source divides by zero. */
  function Quotient(num: real, den: real): (q: Option<real>)
    ensures q.Some? <==> den != 0.0
    ensures q.Some? ==> q.value * den == num
  {
    if den == 0.0 then None else Some(num / den)
  }

  /** The species the getter names for a track. */
  function TrackPid(o: Oracles, g: Getter, t: Track): int {
    g.getPid(o.magnitude(t.momentum) * (t.charge as real), t.dedx, Purity)
  }

  /** The particle written for a track identified as pid. */
  function MakeParticle(o: Oracles, t: Track, pid: int): (p: RecParticle)
    ensures p.momentum == t.momentum && p.pid == pid && p.mass == o.mass(pid)
    ensures p.yCm == p.y - o.beamRapidity && p.yCm == YCm(o, t.momentum, p.mass)
    ensures p.dcax == t.quality.dcax && p.dcay == t.quality.dcay
    ensures p.nhitsTotal == p.nhitsVtpc + t.quality.nhitsMtpc
    ensures p.nhitsTotal == VtxTrackCut.NhitsTotal(t.quality) && p.nhitsPotTotal == VtxTrackCut.NhitsPotTotal(t.quality)
    ensures p.chi2Ndf.Some? <==> t.ndf != 0
    ensures p.chi2Ndf.Some? ==> p.chi2Ndf.value * (t.ndf as real) == t.chi2
    ensures p.nhitsRatio.Some? <==> p.nhitsPotTotal != 0
    ensures p.nhitsRatio.Some? ==> p.nhitsRatio.value * (p.nhitsPotTotal as real) == p.nhitsTotal as real
  {
    var mass := o.mass(pid);
    var y := o.rapidity(t.momentum, mass);
    var q := t.quality;
    var nhitsTotal := q.nhitsVtpc1 + q.nhitsVtpc2 + q.nhitsMtpc;
    var nhitsVtpc := q.nhitsVtpc1 + q.nhitsVtpc2;
    var nhitsPotTotal := q.nhitsPotVtpc1 + q.nhitsPotVtpc2 + q.nhitsPotMtpc;
    RecParticle(t.momentum, pid, mass, y, y - o.beamRapidity, q.dcax, q.dcay,
                Quotient(t.chi2, t.ndf as real),
                nhitsTotal, nhitsVtpc, nhitsPotTotal,
                Quotient(nhitsTotal as real, nhitsPotTotal as real))
  }

  /** The output of one event: the particles of the identified tracks, in
      the order of the tracks. */
  function Identified(o: Oracles, g: Getter, tracks: seq<Track>): seq<RecParticle>
    decreases |tracks|
  {
    if tracks == [] then []
    else
      var t := tracks[|tracks| - 1];
      var pid := TrackPid(o, g, t);
      Identified(o, g, tracks[..|tracks| - 1]) + (if pid != Unidentified then [MakeParticle(o, t, pid)] else [])
  }

  /** The positions of the identified tracks: increasing, within the input,
      and holding exactly the tracks the getter names a species for. */
  function IdentifiedPositions(o: Oracles, g: Getter, tracks: seq<Track>): (idx: seq<nat>)
    ensures forall k :: 0 <= k < |idx| ==> idx[k] < |tracks|
    ensures forall k, l :: 0 <= k < l < |idx| ==> idx[k] < idx[l]
    ensures forall i :: 0 <= i < |tracks| ==> (i in idx <==> TrackPid(o, g, tracks[i]) != Unidentified)
    decreases |tracks|
  {
    if tracks == [] then []
    else
      var n := |tracks| - 1;
      var init := tracks[..n];
      assert forall i :: 0 <= i < n ==> init[i] == tracks[i];
      IdentifiedPositions(o, g, init) + (if TrackPid(o, g, tracks[n]) != Unidentified then [n] else [])
  }

  /** The output is the input filtered by the getter and mapped to
      particles: output k is the particle of the track at position k of
      IdentifiedPositions. */
  lemma {:induction false} IdentifiedIsFilter(o: Oracles, g: Getter, tracks: seq<Track>)
    ensures var out := Identified(o, g, tracks);
      var idx := IdentifiedPositions(o, g, tracks);
      |out| == |idx| &&
      forall k :: 0 <= k < |out| ==> out[k] == MakeParticle(o, tracks[idx[k]], TrackPid(o, g, tracks[idx[k]]))
    decreases |tracks|
  {
    if tracks != [] {
      var n := |tracks| - 1;
      var init := tracks[..n];
      IdentifiedIsFilter(o, g, init);
      assert forall i :: 0 <= i < n ==> init[i] == tracks[i];
    }
  }

  /** Every output particle carries a species, and there are no more
      particles than tracks. */
  lemma IdentifiedAreIdentified(o: Oracles, g: Getter, tracks: seq<Track>)
    ensures |Identified(o, g, tracks)| <= |tracks|
    ensures forall k :: 0 <= k < |Identified(o, g, tracks)| ==> Identified(o, g, tracks)[k].pid != Unidentified
  {
    IdentifiedIsFilter(o, g, tracks);
    var idx := IdentifiedPositions(o, g, tracks);
    PositionsBound(idx, |tracks|);
  }

  /** A strictly increasing sequence of positions below n has at most n entries. */
  lemma {:induction false} PositionsBound(idx: seq<nat>, n: nat)
    requires forall k :: 0 <= k < |idx| ==> idx[k] < n
    requires forall k, l :: 0 <= k < l < |idx| ==> idx[k] < idx[l]
    ensures |idx| <= n
    decreases n
  {
    if idx != [] {
      var init := idx[..|idx| - 1];
      PositionsBound(init, idx[|idx| - 1]);
    }
  }

  /** The hit ratio written for a track that passes a quality cut is
      defined and lies strictly inside the cut's window. */
  lemma AcceptedTrackRatio(o: Oracles, cut: VtxTrackCut.Cut, t: Track, pid: int)
    requires VtxTrackCut.CheckVtxTrack(cut, t.quality)
    ensures MakeParticle(o, t, pid).nhitsRatio.Some?
    ensures cut.ratioMin < MakeParticle(o, t, pid).nhitsRatio.value < cut.ratioMax
  {
    VtxTrackCut.AcceptedRatioInWindow(cut, t.quality);
  }
}
