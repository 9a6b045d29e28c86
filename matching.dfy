/** The vertex-track to simulated-track matching of one event.

    The source reads it as an ordered map from vertex-track index to
    simulated-track index (iterated in increasing key order) and asks for
    its inverse. Here it is the sequence of its pairs in that order; the
    forward and inverse maps are derived from that one sequence. */
module Matching {

  datatype Match = Match(vtxId: int, simId: int)

  /** Indices refer to existing tracks, vertex indices strictly increase (the
      map's iteration order, hence distinct keys) and no simulated track is
      matched twice (the matching is injective). */
  predicate ValidMatching(ms: seq<Match>, nVtx: nat, nSim: nat) {
    (forall j :: 0 <= j < |ms| ==> 0 <= ms[j].vtxId < nVtx && 0 <= ms[j].simId < nSim) &&
    (forall j, k :: 0 <= j < k < |ms| ==> ms[j].vtxId < ms[k].vtxId) &&
    (forall j, k :: 0 <= j < k < |ms| ==> ms[j].simId != ms[k].simId)
  }

  /** Some pair of the matching is (d, s). */
  predicate Matched(ms: seq<Match>, d: int, s: int) {
    exists j :: 0 <= j < |ms| && ms[j] == Match(d, s)
  }

  /** The forward view: vertex index to simulated index. */
  function Forward(ms: seq<Match>): map<int, int> {
    if |ms| == 0 then map[]
    else Forward(ms[..|ms| - 1])[ms[|ms| - 1].vtxId := ms[|ms| - 1].simId]
  }

  /** The inverse view: simulated index to vertex index. */
  function Inverse(ms: seq<Match>): map<int, int> {
    if |ms| == 0 then map[]
    else Inverse(ms[..|ms| - 1])[ms[|ms| - 1].simId := ms[|ms| - 1].vtxId]
  }

  lemma {:induction false} ForwardHolds(ms: seq<Match>, nVtx: nat, nSim: nat, d: int, s: int)
    requires ValidMatching(ms, nVtx, nSim)
    ensures (d in Forward(ms) && Forward(ms)[d] == s) <==> Matched(ms, d, s)
  {
    if |ms| > 0 {
      var init := ms[..|ms| - 1];
      var last := ms[|ms| - 1];
      ForwardHolds(init, nVtx, nSim, d, s);
      if Matched(ms, d, s) && !(d == last.vtxId && s == last.simId) {
        var j :| 0 <= j < |ms| && ms[j] == Match(d, s);
        assert j < |ms| - 1;
        assert init[j] == ms[j];
      }
      if Matched(init, d, s) {
        var j :| 0 <= j < |init| && init[j] == Match(d, s);
        assert ms[j] == init[j];
      }
    }
  }

  lemma {:induction false} InverseHolds(ms: seq<Match>, nVtx: nat, nSim: nat, d: int, s: int)
    requires ValidMatching(ms, nVtx, nSim)
    ensures (s in Inverse(ms) && Inverse(ms)[s] == d) <==> Matched(ms, d, s)
  {
    if |ms| > 0 {
      var init := ms[..|ms| - 1];
      var last := ms[|ms| - 1];
      InverseHolds(init, nVtx, nSim, d, s);
      if Matched(ms, d, s) && !(d == last.vtxId && s == last.simId) {
        var j :| 0 <= j < |ms| && ms[j] == Match(d, s);
        assert j < |ms| - 1;
        assert init[j] == ms[j];
      }
      if Matched(init, d, s) {
        var j :| 0 <= j < |init| && init[j] == Match(d, s);
        assert ms[j] == init[j];
      }
    }
  }

  /** The two views are consistent: d maps forward to s exactly when s maps
      back to d. */
  lemma ViewsAgree(ms: seq<Match>, nVtx: nat, nSim: nat, d: int, s: int)
    requires ValidMatching(ms, nVtx, nSim)
    ensures (d in Forward(ms) && Forward(ms)[d] == s) <==> (s in Inverse(ms) && Inverse(ms)[s] == d)
  {
    ForwardHolds(ms, nVtx, nSim, d, s);
    InverseHolds(ms, nVtx, nSim, d, s);
  }

  /** Every entry of the inverse view names an existing vertex track. */
  lemma {:induction false} InverseInRange(ms: seq<Match>, nVtx: nat, nSim: nat, s: int)
    requires ValidMatching(ms, nVtx, nSim)
    requires s in Inverse(ms)
    ensures 0 <= Inverse(ms)[s] < nVtx
  {
    InverseHolds(ms, nVtx, nSim, Inverse(ms)[s], s);
  }
}
