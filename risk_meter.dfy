/**
 * The colour of a RiskMeter bar (components/RiskMeter.tsx): four bands
 * cut at 25, 50 and 75, each lower bound inclusive.
 */
module RiskMeter {
  const Thresholds: seq<real> := [25.0, 50.0, 75.0]
  const Colors: seq<string> := ["bg-emerald-500", "bg-yellow-500", "bg-orange-500", "bg-red-500"]

  /** `getColor` (lines 10-15). */
  function GetColor(v: real): (c: string)
    ensures c == "bg-emerald-500" <==> v < 25.0
    ensures c == "bg-yellow-500" <==> 25.0 <= v < 50.0
    ensures c == "bg-orange-500" <==> 50.0 <= v < 75.0
    ensures c == "bg-red-500" <==> 75.0 <= v
  {
    if v < 25.0 then "bg-emerald-500"
    else if v < 50.0 then "bg-yellow-500"
    else if v < 75.0 then "bg-orange-500"
    else "bg-red-500"
  }

  /** How many of the thresholds the value has reached. */
  function Reached(ts: seq<real>, v: real): (n: nat)
    ensures n <= |ts|
  {
    if ts == [] then 0 else (if ts[0] <= v then 1 else 0) + Reached(ts[1..], v)
  }

  function Band(v: real): nat {
    Reached(Thresholds, v)
  }

  /** The colour is the one of the band the value falls in, so every
    * value has exactly one colour. */
  lemma GetColorBand(v: real)
    ensures GetColor(v) == Colors[Band(v)]
  {
    var t1, t2 := Thresholds[1..], Thresholds[1..][1..];
    assert t1 == [50.0, 75.0] && t2 == [75.0] && t2[1..] == [];
    assert Reached(t2, v) == if 75.0 <= v then 1 else 0;
    assert Reached(t1, v) == (if 50.0 <= v then 1 else 0) + Reached(t2, v);
    assert Band(v) == (if 25.0 <= v then 1 else 0) + Reached(t1, v);
  }

  /** A larger value never reaches fewer thresholds. */
  lemma {:induction false} ReachedMonotone(ts: seq<real>, v: real, w: real)
    requires v <= w
    ensures Reached(ts, v) <= Reached(ts, w)
  {
    if ts != [] {
      ReachedMonotone(ts[1..], v, w);
    }
  }

  /** A larger value never gets a lower band. */
  lemma BandMonotone(v: real, w: real)
    requires v <= w
    ensures Band(v) <= Band(w)
  {
    ReachedMonotone(Thresholds, v, w);
  }
}
