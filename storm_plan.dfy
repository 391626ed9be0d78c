/** `run_storm_rhis`: the multi-leg RHI plan built for a `scan` command.
    The plan is returned as the ordered sequence of RHI requests that the
    source hands, one at a time, to `run_scan_rhi`. */
module StormPlan {
  import opened Wrappers

  datatype ScanKind = RHI | PPI

  /** The arguments of one `run_scan_rhi` / `run_scan_ppi` call. */
  datatype ScanRequest = ScanRequest(kind: ScanKind, startAngle: real, angleSpan: real,
                                     fixedAngle: real, degPerSec: real, nave: int)

  /** The constants one range bracket selects. */
  datatype Bracket = Bracket(elmax: real, nscan: nat, dwell: bool, dotwice: bool)

  /** The bracket table, its ranges taken in the order of the `if` chain:
      the dwell bracket (no legs) is everything outside [10, 40), and every
      other bracket has an even, non-zero number of legs, swept twice only
      in [30, 40). */
  function BracketOf(stormRange: real): (b: Bracket)
    ensures b.dwell <==> stormRange < 10.0 || 40.0 <= stormRange
    ensures b.dwell <==> b.nscan == 0
    ensures b.nscan % 2 == 0 && 0.0 < b.elmax <= 90.0
    ensures b.dotwice <==> 30.0 <= stormRange < 40.0
  {
    if 30.0 <= stormRange < 40.0 then Bracket(25.0, 4, false, true)
    else if 20.0 <= stormRange < 30.0 then Bracket(30.0, 6, false, false)
    else if 10.0 <= stormRange < 20.0 then Bracket(45.0, 4, false, false)
    else Bracket(90.0, 0, true, false)
  }

  /** Offset of leg `i` from the storm azimuth: `(i - nscan/2 + 0.5) * delta_az`. */
  function Offset(nscan: nat, i: nat, deltaAz: real): real {
    (i as real - nscan as real / 2.0 + 0.5) * deltaAz
  }

  /** `storm_az + (np.arange(nscan) - nscan/2 + 0.5) * delta_az`. */
  function Azimuths(stormAz: real, nscan: nat, deltaAz: real): (azs: seq<real>)
    ensures |azs| == nscan
    ensures forall i :: 0 <= i < nscan ==> azs[i] == stormAz + Offset(nscan, i, deltaAz)
  {
    seq(nscan, i requires 0 <= i < nscan => stormAz + Offset(nscan, i, deltaAz))
  }

  /** The "up" sweep `run_scan_rhi(0, elmax, az, speed, 2)`. */
  function Up(elmax: real, az: real, speed: real): ScanRequest {
    ScanRequest(RHI, 0.0, elmax, az, speed, 2)
  }

  /** The "down" sweep `run_scan_rhi(elmax, -elmax, az, speed, 2)`. */
  function Down(elmax: real, az: real, speed: real): ScanRequest {
    ScanRequest(RHI, elmax, -elmax, az, speed, 2)
  }

  /** One pass over the legs: request `j` sweeps at `azs[j]`, an up sweep
      for even `j` and a down sweep for odd `j`. */
  function Pass(elmax: real, azs: seq<real>, speed: real): (p: seq<ScanRequest>)
    ensures |p| == |azs|
  {
    seq(|azs|, j requires 0 <= j < |azs| => if j % 2 == 0 then Up(elmax, azs[j], speed) else Down(elmax, azs[j], speed))
  }

  /** The whole plan for a storm at `stormAz`, `stormRange`, with leg
      spacing `deltaAz`: nothing for the dwell bracket, one pass, or the
      same pass twice for the bracket that sets `dotwice`. */
  function Plan(stormAz: real, stormRange: real, speed: real, deltaAz: real): (p: seq<ScanRequest>)
    ensures var b := BracketOf(stormRange); |p| == if b.dotwice then 2 * b.nscan else b.nscan
  {
    var b := BracketOf(stormRange);
    if b.dwell then []
    else
      var once := Pass(b.elmax, Azimuths(stormAz, b.nscan, deltaAz), speed);
      if b.dotwice then once + once else once
  }

  /** `run_storm_rhis(storm_az, storm_range, scan_speed)` with `np.rad2deg`
      given as `rad2deg`; `None` when `0.5/storm_range` divides by zero. */
  method RunStormRhis(stormAz: real, stormRange: real, scanSpeed: real, rad2deg: real -> real)
    returns (plan: Option<seq<ScanRequest>>)
    ensures stormRange == 0.0 ==> plan.None?
    ensures stormRange != 0.0 ==> plan == Some(Plan(stormAz, stormRange, scanSpeed, rad2deg(0.5 / stormRange)))
  {
    if stormRange == 0.0 {
      return None;
    }
    var deltaAz := rad2deg(0.5 / stormRange);
    var elmax, nscan, dwell, dotwice;
    if 30.0 <= stormRange < 40.0 {
      elmax, nscan, dwell, dotwice := 25.0, 4, false, true;
    } else if 20.0 <= stormRange < 30.0 {
      elmax, nscan, dwell, dotwice := 30.0, 6, false, false;
    } else if 10.0 <= stormRange < 20.0 {
      elmax, nscan, dwell, dotwice := 45.0, 4, false, false;
    } else {
      elmax, nscan, dwell, dotwice := 90.0, 0, true, false;
    }
    var azimuths := Azimuths(stormAz, nscan, deltaAz);
    var legs: seq<ScanRequest> := [];
    if !dwell {
      legs := SweepLegs(legs, elmax, azimuths, scanSpeed);
      assert legs == Pass(elmax, azimuths, scanSpeed);
      if dotwice {
        legs := SweepLegs(legs, elmax, azimuths, scanSpeed);
      }
    }
    assert BracketOf(stormRange) == Bracket(elmax, nscan, dwell, dotwice);
    return Some(legs);
  }

  /** One `for i in np.arange(0, nscan, 2)` loop of `run_storm_rhis`: an up
      and a down sweep per pair of legs, appended to the requests so far. */
  method SweepLegs(legs: seq<ScanRequest>, elmax: real, azimuths: seq<real>, speed: real)
    returns (out: seq<ScanRequest>)
    requires |azimuths| % 2 == 0
    ensures out == legs + Pass(elmax, azimuths, speed)
  {
    ghost var once := Pass(elmax, azimuths, speed);
    out := legs;
    var i := 0;
    while i < |azimuths|
      invariant 0 <= i <= |azimuths| && i % 2 == 0
      invariant out == legs + once[..i]
    {
      assert once[..i + 2] == once[..i] + [once[i], once[i + 1]];
      out := out + [Up(elmax, azimuths[i], speed), Down(elmax, azimuths[i + 1], speed)];
      i := i + 2;
    }
    assert once[..|azimuths|] == once;
  }

  /** The bracket table: how many requests each range produces. A range
      below 10, or of 40 and above, produces none. */
  lemma PlanLength(stormAz: real, stormRange: real, speed: real, deltaAz: real)
    ensures var n := |Plan(stormAz, stormRange, speed, deltaAz)|;
      && (30.0 <= stormRange < 40.0 ==> n == 8)
      && (20.0 <= stormRange < 30.0 ==> n == 6)
      && (10.0 <= stormRange < 20.0 ==> n == 4)
      && (stormRange < 10.0 || 40.0 <= stormRange ==> n == 0)
  {
  }

  /** Request `j` of a plan: the leg `i = j % nscan` of its pass, swept up
      from 0 to `elmax` when `i` is even (the first sweep of pair `i / 2`)
      and down from `elmax` by `-elmax` when `i` is odd, at the azimuth of
      leg `i`, at rate `speed` with `nave` 2. */
  lemma PlanRequest(stormAz: real, stormRange: real, speed: real, deltaAz: real, j: nat)
    requires j < |Plan(stormAz, stormRange, speed, deltaAz)|
    ensures var b := BracketOf(stormRange);
      var i := j % b.nscan;
      var r := Plan(stormAz, stormRange, speed, deltaAz)[j];
      && b.nscan > 0
      && r.kind == RHI && r.degPerSec == speed && r.nave == 2
      && r.fixedAngle == stormAz + Offset(b.nscan, i, deltaAz)
      && (i % 2 == 0 ==> r.startAngle == 0.0 && r.angleSpan == b.elmax)
      && (i % 2 == 1 ==> r.startAngle == b.elmax && r.angleSpan == -b.elmax)
  {
    var b := BracketOf(stormRange);
    var once := Pass(b.elmax, Azimuths(stormAz, b.nscan, deltaAz), speed);
    if b.dotwice && j >= b.nscan {
      assert Plan(stormAz, stormRange, speed, deltaAz)[j] == once[j - b.nscan];
      assert j % b.nscan == j - b.nscan;
    }
  }

  /** The leg offsets are symmetric about the storm azimuth. */
  lemma OffsetsAntisymmetric(nscan: nat, i: nat, deltaAz: real)
    requires i < nscan
    ensures Offset(nscan, i, deltaAz) == -Offset(nscan, nscan - 1 - i, deltaAz)
  {
  }

  /** For the bracket [30, 40) the second half of the plan repeats the first. */
  lemma DoublePass(stormAz: real, stormRange: real, speed: real, deltaAz: real)
    requires 30.0 <= stormRange < 40.0
    ensures var p := Plan(stormAz, stormRange, speed, deltaAz); p[..4] == p[4..]
  {
  }
}
