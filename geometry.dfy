/** The per-phase geometry of one animation frame (iganima/iganima_functions.py):
    the epicentre point, the growing line, the scaled sine wave and the
    concentric circles with the stations they have reached.

    A frame is the list of map traces handed to the renderer. Floating-point
    values are exact reals here; the waveform samples and the sine and cosine
    of the circle's sample angles are inputs. */
module Geometry {

  /** How a trace is drawn. */
  datatype Mode = Markers | Lines | MarkersText

  /** One map trace: longitudes, latitudes, labels, drawing mode, line or
      marker colour, and per-point marker colours (empty when the trace
      uses no per-point colours). */
  datatype Trace = Trace(
    lon: seq<real>,
    lat: seq<real>,
    text: seq<string>,
    mode: Mode,
    color: string,
    markerColors: seq<string>)

  /** The station positions and labels that every frame draws, in the
      order of increasing distance to the epicentre. */
  datatype StationMarkers = StationMarkers(lon: seq<real>, lat: seq<real>, names: seq<string>)

  /** The labelled station markers, with one marker colour per station or none. */
  function StationTrace(markers: StationMarkers, colors: seq<string>): Trace
  {
    Trace(markers.lon, markers.lat, markers.names, MarkersText, "", colors)
  }

  function Min(a: real, b: real): real { if a <= b then a else b }

  function Max(a: real, b: real): real { if a >= b then a else b }

  /** `len(s)` copies of `x` (numpy's `full_like`). */
  function Repeat(x: real, n: nat): (r: seq<real>)
    ensures |r| == n && forall i :: 0 <= i < n ==> r[i] == x
  {
    seq(n, _ => x)
  }

  // ---------------------------------------------------------------------
  // Circles

  /** Number of points `generate_circle` draws by default. */
  const CirclePoints: nat := 100

  /** One coordinate of a planar circle: the centre plus the radius times
      `trigAt(i, points)` for each of `points` evenly spaced angles over a
      full turn. The latitudes use the sine, the longitudes the cosine. */
  function CircleAxis(centre: real, radius: real, points: nat, trigAt: (nat, nat) -> real): (r: seq<real>)
    ensures |r| == points
  {
    seq(points, i requires 0 <= i < points => centre + radius * trigAt(i, points))
  }

  /** `generate_circle`: one latitude and one longitude per sample angle. */
  method GenerateCircle(lat: real, lon: real, radius: real, points: nat,
                        sinAt: (nat, nat) -> real, cosAt: (nat, nat) -> real)
    returns (latCircle: seq<real>, lonCircle: seq<real>)
    ensures |latCircle| == points && |lonCircle| == points
    ensures latCircle == CircleAxis(lat, radius, points, sinAt)
    ensures lonCircle == CircleAxis(lon, radius, points, cosAt)
    ensures radius == 0.0 ==> forall i :: 0 <= i < points ==> latCircle[i] == lat && lonCircle[i] == lon
  {
    latCircle, lonCircle := [], [];
    var i := 0;
    while i < points
      invariant 0 <= i <= points
      invariant |latCircle| == i && |lonCircle| == i
      invariant forall k :: 0 <= k < i ==> latCircle[k] == lat + radius * sinAt(k, points)
      invariant forall k :: 0 <= k < i ==> lonCircle[k] == lon + radius * cosAt(k, points)
    {
      latCircle := latCircle + [lat + radius * sinAt(i, points)];
      lonCircle := lonCircle + [lon + radius * cosAt(i, points)];
      i := i + 1;
    }
    var lats, lons := CircleAxis(lat, radius, points, sinAt), CircleAxis(lon, radius, points, cosAt);
    assert forall k :: 0 <= k < points ==> latCircle[k] == lats[k] && lonCircle[k] == lons[k];
  }

  /** Where the sample angle's sine and cosine satisfy sin² + cos² = 1,
      every generated point lies at planar distance `radius` from the centre. */
  lemma CirclePointOnCircle(lat: real, lon: real, radius: real, points: nat,
                            sinAt: (nat, nat) -> real, cosAt: (nat, nat) -> real, i: nat)
    requires i < points
    requires sinAt(i, points) * sinAt(i, points) + cosAt(i, points) * cosAt(i, points) == 1.0
    ensures var dLat := CircleAxis(lat, radius, points, sinAt)[i] - lat;
            var dLon := CircleAxis(lon, radius, points, cosAt)[i] - lon;
            dLat * dLat + dLon * dLon == radius * radius
  {
    var s, c := sinAt(i, points), cosAt(i, points);
    calc {
      (radius * s) * (radius * s) + (radius * c) * (radius * c);
      radius * radius * (s * s + c * c);
      radius * radius;
    }
  }

  /** The three wavefront radii at circle time `tCircle`, outermost first. */
  function Radii(tCircle: int): (r: seq<real>)
    ensures |r| == 3
  {
    [tCircle as real * 0.1, tCircle as real * 0.07, tCircle as real * 0.05]
  }

  /** Once the circles have started the radii are nested, outermost first;
      at circle time 0 they are all zero and before it all negative. */
  lemma RadiiOrder(tCircle: int)
    ensures tCircle > 0 ==> Radii(tCircle)[0] > Radii(tCircle)[1] > Radii(tCircle)[2] > 0.0
    ensures tCircle == 0 ==> Radii(tCircle) == [0.0, 0.0, 0.0]
    ensures tCircle < 0 ==> forall k :: 0 <= k < 3 ==> Radii(tCircle)[k] < 0.0
  {
  }

  /** Each radius grows strictly with circle time. */
  lemma RadiiGrow(t1: int, t2: int, k: nat)
    requires t1 < t2 && k < 3
    ensures Radii(t1)[k] < Radii(t2)[k]
  {
  }

  /** Squared planar distance, treating latitude and longitude as Cartesian. */
  function PlanarDistanceSquared(lat: real, lon: real, lat0: real, lon0: real): (d2: real)
    ensures d2 >= 0.0
  {
    (lat - lat0) * (lat - lat0) + (lon - lon0) * (lon - lon0)
  }

  /** `distance <= radius` with `distance = sqrt(d2)`, stated on squares. */
  predicate WithinRadius(d2: real, radius: real)
  {
    radius >= 0.0 && d2 <= radius * radius
  }

  lemma SquareMonotone(a: real, b: real)
    requires 0.0 <= a <= b
    ensures a * a <= b * b
  {
    assert a * a <= a * b;
    assert a * b <= b * b;
  }

  lemma SquareStrict(a: real, b: real)
    requires 0.0 <= a < b
    ensures a * a < b * b
  {
    var d := b - a;
    assert b == a + d;
    assert b * b == a * a + 2.0 * a * d + d * d;
    assert a * d >= 0.0;
    assert d * d > 0.0;
  }

  lemma MulNonneg(a: real, b: real)
    requires a >= 0.0 && b >= 0.0
    ensures a * b >= 0.0
  {
  }

  lemma MulPos(a: real, b: real)
    requires a > 0.0 && b > 0.0
    ensures a * b > 0.0
  {
  }

  /** Dividing by a positive number keeps order. */
  lemma DivMonotone(a: real, a': real, b: real)
    requires a <= a' && b > 0.0
    ensures a / b <= a' / b
  {
    var q, q' := a / b, a' / b;
    assert q * b == a && q' * b == a';
    if q' < q {
      MulPos(q - q', b);
    }
  }

  /** For any square root `dist` of `d2`, the source's test `dist <= radius`
      is exactly `WithinRadius(d2, radius)`. */
  lemma WithinRadiusIsSqrtTest(d2: real, dist: real, radius: real)
    requires dist >= 0.0 && dist * dist == d2
    ensures dist <= radius <==> WithinRadius(d2, radius)
  {
    if dist <= radius {
      SquareMonotone(dist, radius);
    } else if radius >= 0.0 {
      SquareStrict(radius, dist);
    }
  }

  /** A station is reached when it lies within one of the three radii. */
  predicate Reached(station: (real, real), lat0: real, lon0: real, tCircle: int)
  {
    exists k :: 0 <= k < 3 && WithinRadius(PlanarDistanceSquared(station.0, station.1, lat0, lon0), Radii(tCircle)[k])
  }

  function StationColor(station: (real, real), lat0: real, lon0: real, tCircle: int): string
  {
    if Reached(station, lat0, lon0, tCircle) then "Red" else "Gray"
  }

  function StationColorList(stations: seq<(real, real)>, lat0: real, lon0: real, tCircle: int): (r: seq<string>)
    ensures |r| == |stations|
  {
    seq(|stations|, i requires 0 <= i < |stations| => StationColor(stations[i], lat0, lon0, tCircle))
  }

  /** The colour loop of `create_circle_frames`: for each station, try the
      three radii in turn and stop at the first that contains it. */
  method StationColors(stations: seq<(real, real)>, lat0: real, lon0: real, tCircle: int)
    returns (colors: seq<string>)
    ensures |colors| == |stations|
    ensures forall i :: 0 <= i < |stations| ==>
      (colors[i] == "Red" <==> Reached(stations[i], lat0, lon0, tCircle))
      && (colors[i] == "Gray" <==> !Reached(stations[i], lat0, lon0, tCircle))
    ensures colors == StationColorList(stations, lat0, lon0, tCircle)
  {
    var radii := Radii(tCircle);
    colors := [];
    var i := 0;
    while i < |stations|
      invariant 0 <= i <= |stations|
      invariant colors == StationColorList(stations[..i], lat0, lon0, tCircle)
    {
      var d2 := PlanarDistanceSquared(stations[i].0, stations[i].1, lat0, lon0);
      var inside := false;
      var k := 0;
      while k < 3
        invariant 0 <= k <= 3
        invariant !inside && forall j :: 0 <= j < k ==> !WithinRadius(d2, radii[j])
      {
        if WithinRadius(d2, radii[k]) {
          inside := true;
          break;
        }
        k := k + 1;
      }
      colors := colors + [if inside then "Red" else "Gray"];
      assert stations[..i + 1] == stations[..i] + [stations[i]];
      i := i + 1;
    }
    assert stations[..i] == stations;
  }

  /** Once the circles have started, a station is reached exactly when it is
      inside the outermost radius `0.1 * tCircle`. */
  lemma ReachedIffOuterRadius(station: (real, real), lat0: real, lon0: real, tCircle: int)
    requires tCircle >= 0
    ensures Reached(station, lat0, lon0, tCircle)
        <==> WithinRadius(PlanarDistanceSquared(station.0, station.1, lat0, lon0), tCircle as real * 0.1)
  {
    var d2 := PlanarDistanceSquared(station.0, station.1, lat0, lon0);
    var r := Radii(tCircle);
    if Reached(station, lat0, lon0, tCircle) {
      var k :| 0 <= k < 3 && WithinRadius(d2, r[k]);
      SquareMonotone(r[k], r[0]);
    } else {
      assert !WithinRadius(d2, r[0]);
    }
  }

  /** Before circle time 0 every radius is negative, so no station is reached. */
  lemma NoStationReachedEarly(station: (real, real), lat0: real, lon0: real, tCircle: int)
    requires tCircle < 0
    ensures !Reached(station, lat0, lon0, tCircle)
  {
    RadiiOrder(tCircle);
  }

  /** A station that is reached stays reached in every later frame. */
  lemma ReachedStaysReached(station: (real, real), lat0: real, lon0: real, t1: int, t2: int)
    requires t1 <= t2 && Reached(station, lat0, lon0, t1)
    ensures Reached(station, lat0, lon0, t2)
  {
    var d2 := PlanarDistanceSquared(station.0, station.1, lat0, lon0);
    if t1 < 0 {
      NoStationReachedEarly(station, lat0, lon0, t1);
    }
    ReachedIffOuterRadius(station, lat0, lon0, t1);
    ReachedIffOuterRadius(station, lat0, lon0, t2);
    SquareMonotone(t1 as real * 0.1, t2 as real * 0.1);
  }

  /** The trace of a circle's outline in the given colour. */
  function CircleTrace(lat0: real, lon0: real, radius: real, color: string,
                       sinAt: (nat, nat) -> real, cosAt: (nat, nat) -> real): Trace
  {
    Trace(CircleAxis(lon0, radius, CirclePoints, cosAt), CircleAxis(lat0, radius, CirclePoints, sinAt),
          [], Lines, color, [])
  }

  function MinInt(a: int, b: int): int { if a <= b then a else b }

  /** `zip(radii, circle_colors)`: one outline per radius that has a colour. */
  function CircleTraces(tCircle: int, lat0: real, lon0: real, circleColors: seq<string>,
                        sinAt: (nat, nat) -> real, cosAt: (nat, nat) -> real): (r: seq<Trace>)
    ensures |r| == MinInt(3, |circleColors|)
  {
    seq(MinInt(3, |circleColors|), k requires 0 <= k < MinInt(3, |circleColors|) =>
      CircleTrace(lat0, lon0, Radii(tCircle)[k], circleColors[k], sinAt, cosAt))
  }

  /** The epicentre marker labelled with the magnitude. */
  function MagnitudeTrace(lat0: real, lon0: real, textMagnitude: seq<string>): Trace
  {
    Trace([lon0], [lat0], textMagnitude, MarkersText, "white", [])
  }

  /** The whole circle-phase frame: outlines, coloured stations, magnitude. */
  function CircleFrame(t: int, waveGrow: int, waveShrink: int, lat0: real, lon0: real,
                       circleColors: seq<string>, stations: seq<(real, real)>, markers: StationMarkers,
                       textMagnitude: seq<string>, sinAt: (nat, nat) -> real, cosAt: (nat, nat) -> real): seq<Trace>
  {
    var tCircle := t - (waveGrow + waveShrink);
    CircleTraces(tCircle, lat0, lon0, circleColors, sinAt, cosAt)
      + [StationTrace(markers, StationColorList(stations, lat0, lon0, tCircle)),
         MagnitudeTrace(lat0, lon0, textMagnitude)]
  }

  /** `create_circle_frames`. */
  method CreateCircleFrames(t: int, waveGrow: int, waveShrink: int, lat0: real, lon0: real,
                            circleColors: seq<string>, stations: seq<(real, real)>, markers: StationMarkers,
                            textMagnitude: seq<string>, sinAt: (nat, nat) -> real, cosAt: (nat, nat) -> real)
    returns (frameData: seq<Trace>)
    ensures frameData == CircleFrame(t, waveGrow, waveShrink, lat0, lon0, circleColors, stations,
                                     markers, textMagnitude, sinAt, cosAt)
    ensures |frameData| == MinInt(3, |circleColors|) + 2
    ensures forall k :: 0 <= k < MinInt(3, |circleColors|) ==>
      frameData[k].color == circleColors[k] && |frameData[k].lat| == CirclePoints
    ensures var st := frameData[|frameData| - 2];
      |st.markerColors| == |stations|
      && forall i :: 0 <= i < |stations| ==>
           (st.markerColors[i] == "Red" <==> Reached(stations[i], lat0, lon0, t - (waveGrow + waveShrink)))
    ensures frameData[|frameData| - 1] == MagnitudeTrace(lat0, lon0, textMagnitude)
  {
    var tCircle := t - (waveGrow + waveShrink);
    var radii := Radii(tCircle);
    var n := MinInt(3, |circleColors|);
    frameData := [];
    var k := 0;
    while k < n
      invariant 0 <= k <= n
      invariant frameData == CircleTraces(tCircle, lat0, lon0, circleColors, sinAt, cosAt)[..k]
    {
      var latCirc, lonCirc := GenerateCircle(lat0, lon0, radii[k], CirclePoints, sinAt, cosAt);
      frameData := frameData + [Trace(lonCirc, latCirc, [], Lines, circleColors[k], [])];
      k := k + 1;
    }
    var stationColors := StationColors(stations, lat0, lon0, tCircle);
    frameData := frameData + [StationTrace(markers, stationColors), MagnitudeTrace(lat0, lon0, textMagnitude)];
  }

  // ---------------------------------------------------------------------
  // Point, line and wave

  /** `create_initial_point_frame`: the epicentre alone, then the stations. */
  function CreateInitialPointFrame(lon0: real, lat0: real, markers: StationMarkers): (r: seq<Trace>)
    ensures |r| == 2 && r[0].lon == [lon0] && r[0].lat == [lat0] && r[0].mode == Markers
    ensures r[1] == StationTrace(markers, [])
  {
    [Trace([lon0], [lat0], [], Markers, "green", []), StationTrace(markers, [])]
  }

  /** numpy's `interp(x, [x0, x1], [y0, y1])`: linear between the two
      sample points and constant outside them. */
  function Interp(x: real, x0: real, x1: real, y0: real, y1: real): (r: real)
    requires x0 < x1
    ensures y0 <= y1 ==> y0 <= r <= y1
    ensures y1 <= y0 ==> y1 <= r <= y0
    ensures x <= x0 ==> r == y0
    ensures x >= x1 ==> r == y1
  {
    if x <= x0 then y0
    else if x >= x1 then y1
    else
      var f := (x - x0) / (x1 - x0);
      DivMonotone(x - x0, x1 - x0, x1 - x0);
      DivMonotone(0.0, x - x0, x1 - x0);
      FractionBetween(f, y0, y1);
      y0 + f * (y1 - y0)
  }

  lemma FractionBetween(f: real, y0: real, y1: real)
    requires 0.0 <= f <= 1.0
    ensures y0 <= y1 ==> y0 <= y0 + f * (y1 - y0) <= y1
    ensures y1 <= y0 ==> y1 <= y0 + f * (y1 - y0) <= y0
  {
    if y0 <= y1 {
      MulNonneg(f, y1 - y0);
      MulNonneg(1.0 - f, y1 - y0);
    } else {
      MulNonneg(f, y0 - y1);
      MulNonneg(1.0 - f, y0 - y1);
    }
  }

  /** `interp` follows its samples: rising with rising samples and falling
      with falling ones. */
  lemma InterpMonotone(x: real, x': real, x0: real, x1: real, y0: real, y1: real)
    requires x0 < x1 && x <= x'
    ensures y0 <= y1 ==> Interp(x, x0, x1, y0, y1) <= Interp(x', x0, x1, y0, y1)
    ensures y1 <= y0 ==> Interp(x', x0, x1, y0, y1) <= Interp(x, x0, x1, y0, y1)
  {
    if x0 < x && x' < x1 {
      var f, f' := (x - x0) / (x1 - x0), (x' - x0) / (x1 - x0);
      DivMonotone(x - x0, x' - x0, x1 - x0);
      if y0 <= y1 {
        MulNonneg(f' - f, y1 - y0);
      } else {
        MulNonneg(f' - f, y0 - y1);
      }
    }
  }

  /** Python's `int(x)` on a float: truncation toward zero. */
  function Trunc(x: real): int
  {
    if x >= 0.0 then x.Floor else -((-x).Floor)
  }

  /** Truncation keeps order. */
  lemma TruncMonotone(x: real, y: real)
    requires x <= y
    ensures Trunc(x) <= Trunc(y)
  {
  }

  /** The line length during line growth:
      `int(interp(t - P, [1, L], [1, MAX_LEN]))`. */
  function LineGrowthLength(t: int, pointFrames: int, lineGrowthFrames: int, maxLen: int): (r: int)
    requires lineGrowthFrames > 1 && maxLen >= 1
    ensures 1 <= r <= maxLen
    ensures t - pointFrames >= lineGrowthFrames ==> r == maxLen
    ensures t - pointFrames <= 1 ==> r == 1
  {
    Trunc(Interp((t - pointFrames) as real, 1.0, lineGrowthFrames as real, 1.0, maxLen as real))
  }

  /** The growing line never gets shorter from one frame to the next. */
  lemma LineGrowthMonotone(t: int, t': int, pointFrames: int, lineGrowthFrames: int, maxLen: int)
    requires lineGrowthFrames > 1 && maxLen >= 1 && t <= t'
    ensures LineGrowthLength(t, pointFrames, lineGrowthFrames, maxLen)
         <= LineGrowthLength(t', pointFrames, lineGrowthFrames, maxLen)
  {
    var x0, x1, y1 := 1.0, lineGrowthFrames as real, maxLen as real;
    InterpMonotone((t - pointFrames) as real, (t' - pointFrames) as real, x0, x1, 1.0, y1);
    TruncMonotone(Interp((t - pointFrames) as real, x0, x1, 1.0, y1),
                  Interp((t' - pointFrames) as real, x0, x1, 1.0, y1));
  }

  /** The visible part of the reference line:
      `lon_total[mid - length // 2 : mid + length // 2]` with `mid = MAX_LEN // 2`. */
  function LineWindow(lonTotal: seq<real>, maxLen: int, length: int): (w: seq<real>)
    requires |lonTotal| == maxLen && 1 <= length <= maxLen
    ensures |w| == 2 * (length / 2)
    ensures forall k :: 0 <= k < |w| ==> w[k] == lonTotal[maxLen / 2 - length / 2 + k]
  {
    lonTotal[maxLen / 2 - length / 2 .. maxLen / 2 + length / 2]
  }

  /** A length-1 line shows nothing; with an even `MAX_LEN` the full length
      shows the whole reference line. */
  lemma LineWindowExtremes(lonTotal: seq<real>, maxLen: int)
    requires |lonTotal| == maxLen >= 1
    ensures LineWindow(lonTotal, maxLen, 1) == []
    ensures maxLen % 2 == 0 ==> LineWindow(lonTotal, maxLen, maxLen) == lonTotal
  {
  }

  /** Windows are centred on the same point: a shorter window is the middle
      part of a longer one. */
  lemma LineWindowNested(lonTotal: seq<real>, maxLen: int, short: int, long: int)
    requires |lonTotal| == maxLen && 1 <= short <= long <= maxLen
    ensures var d := long / 2 - short / 2;
      LineWindow(lonTotal, maxLen, short) == LineWindow(lonTotal, maxLen, long)[d .. d + 2 * (short / 2)]
  {
  }

  /** A horizontal line at the epicentre's latitude over the given longitudes. */
  function LineTrace(lon: seq<real>, lat0: real, color: string): (tr: Trace)
    ensures |tr.lat| == |tr.lon| && forall i :: 0 <= i < |tr.lat| ==> tr.lat[i] == lat0
  {
    Trace(lon, Repeat(lat0, |lon|), [], Lines, color, [])
  }

  /** `create_line_growth_frame`. */
  function CreateLineGrowthFrame(t: int, pointFrames: int, lineGrowthFrames: int, maxLen: int,
                                 lonTotal: seq<real>, lat0: real, markers: StationMarkers): (r: seq<Trace>)
    requires lineGrowthFrames > 1 && maxLen >= 1 && |lonTotal| == maxLen
    ensures |r| == 2 && r[1] == StationTrace(markers, [])
    ensures r[0].lon == LineWindow(lonTotal, maxLen, LineGrowthLength(t, pointFrames, lineGrowthFrames, maxLen))
    ensures |r[0].lat| == |r[0].lon| && forall i :: 0 <= i < |r[0].lat| ==> r[0].lat[i] == lat0
  {
    var length := LineGrowthLength(t, pointFrames, lineGrowthFrames, maxLen);
    [LineTrace(LineWindow(lonTotal, maxLen, length), lat0, "green"), StationTrace(markers, [])]
  }

  /** Wave growth amplitude `min(1, (t - (P + L)) / W)`: capped at 1 from
      above but not clamped at 0 from below. */
  function GrowAlpha(t: int, pointFrames: int, lineGrowthFrames: int, waveFrames: int): (alpha: real)
    requires waveFrames > 0
    ensures alpha <= 1.0
    ensures t - (pointFrames + lineGrowthFrames) >= waveFrames ==> alpha == 1.0
    ensures t - (pointFrames + lineGrowthFrames) == 0 ==> alpha == 0.0
    ensures t - (pointFrames + lineGrowthFrames) < 0 ==> alpha < 0.0
  {
    Min(1.0, (t - (pointFrames + lineGrowthFrames)) as real / waveFrames as real)
  }

  /** Wave shrink amplitude `max(0, 1 - f / W)` with `f = t - (P + L + W)`:
      never negative, 1 at `f = 0`, 0 from `f = W` on; not capped at 1 for
      negative `f`. */
  function ShrinkAlpha(t: int, pointFrames: int, lineGrowthFrames: int, waveFrames: int): (alpha: real)
    requires waveFrames > 0
    ensures alpha >= 0.0
    ensures t - (pointFrames + lineGrowthFrames + waveFrames) >= 0 ==> alpha <= 1.0
    ensures t - (pointFrames + lineGrowthFrames + waveFrames) == 0 ==> alpha == 1.0
    ensures t - (pointFrames + lineGrowthFrames + waveFrames) >= waveFrames ==> alpha == 0.0
    ensures t - (pointFrames + lineGrowthFrames + waveFrames) < 0 ==> alpha > 1.0
  {
    var f := t - (pointFrames + lineGrowthFrames + waveFrames);
    Max(0.0, 1.0 - f as real / waveFrames as real)
  }

  lemma GrowAlphaMonotone(t: int, t': int, pointFrames: int, lineGrowthFrames: int, waveFrames: int)
    requires waveFrames > 0 && t <= t'
    ensures GrowAlpha(t, pointFrames, lineGrowthFrames, waveFrames)
         <= GrowAlpha(t', pointFrames, lineGrowthFrames, waveFrames)
  {
    var w := waveFrames as real;
    assert (t - (pointFrames + lineGrowthFrames)) as real / w <= (t' - (pointFrames + lineGrowthFrames)) as real / w;
  }

  lemma ShrinkAlphaMonotone(t: int, t': int, pointFrames: int, lineGrowthFrames: int, waveFrames: int)
    requires waveFrames > 0 && t <= t'
    ensures ShrinkAlpha(t', pointFrames, lineGrowthFrames, waveFrames)
         <= ShrinkAlpha(t, pointFrames, lineGrowthFrames, waveFrames)
  {
    var w := waveFrames as real;
    var base := pointFrames + lineGrowthFrames + waveFrames;
    DivMonotone((t - base) as real, (t' - base) as real, w);
  }

  /** The amplitude factor of a wave frame, growing or shrinking. */
  function WaveAlpha(t: int, pointFrames: int, lineGrowthFrames: int, waveFrames: int, isGrowing: bool): real
    requires waveFrames > 0
  {
    if isGrowing then GrowAlpha(t, pointFrames, lineGrowthFrames, waveFrames)
    else ShrinkAlpha(t, pointFrames, lineGrowthFrames, waveFrames)
  }

  /** Latitudes of the wave: `event_latitude + alpha * waveform * vertical_scale`. */
  function WaveLats(lat0: real, alpha: real, waveform: seq<real>, verticalScale: real): (r: seq<real>)
    ensures |r| == |waveform|
  {
    seq(|waveform|, i requires 0 <= i < |waveform| => lat0 + alpha * waveform[i] * verticalScale)
  }

  /** `create_sine_wave_frame`. */
  function CreateSineWaveFrame(t: int, pointFrames: int, lineGrowthFrames: int, waveFrames: int,
                               waveform: seq<real>, verticalScale: real, lonTotal: seq<real>,
                               lat0: real, markers: StationMarkers, isGrowing: bool): (r: seq<Trace>)
    requires waveFrames > 0
    ensures |r| == 2 && r[1] == StationTrace(markers, [])
    ensures r[0].lon == lonTotal && |r[0].lat| == |waveform|
    ensures forall i :: 0 <= i < |waveform| ==>
      r[0].lat[i] - lat0 == WaveAlpha(t, pointFrames, lineGrowthFrames, waveFrames, isGrowing) * waveform[i] * verticalScale
  {
    var alpha := WaveAlpha(t, pointFrames, lineGrowthFrames, waveFrames, isGrowing);
    [Trace(lonTotal, WaveLats(lat0, alpha, waveform, verticalScale), [], Lines, "green", []),
     StationTrace(markers, [])]
  }

  /** With amplitude factor 0 the wave is flat at the epicentre's latitude,
      and with a factor in [0, 1] no point is displaced further than the
      unscaled sample. */
  lemma WaveDisplacement(lat0: real, alpha: real, waveform: seq<real>, verticalScale: real, i: nat)
    requires i < |waveform|
    ensures alpha == 0.0 ==> WaveLats(lat0, alpha, waveform, verticalScale)[i] == lat0
    ensures 0.0 <= alpha <= 1.0 ==>
      Abs(WaveLats(lat0, alpha, waveform, verticalScale)[i] - lat0) <= Abs(waveform[i] * verticalScale)
  {
    var x := waveform[i] * verticalScale;
    assert WaveLats(lat0, alpha, waveform, verticalScale)[i] - lat0 == alpha * x;
    if 0.0 <= alpha <= 1.0 {
      if x >= 0.0 {
        assert alpha * x <= 1.0 * x;
      } else {
        assert alpha * (-x) <= 1.0 * (-x);
      }
    }
  }

  function Abs(x: real): real { if x >= 0.0 then x else -x }
}
