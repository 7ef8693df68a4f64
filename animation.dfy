/** The frame loop of the animation runner (run_iganima.py): which phase
    each frame index falls in, the inline line-shrink phase, the zoom
    schedule, the frame file names, and the preparation of the station
    markers (distance, sort, split into names and coordinates). */
module Animation {
  import opened Wrappers
  import opened Strings
  import Decimal
  import Sorting
  import opened Geometry
  import StationUtils

  // ---------------------------------------------------------------------
  // Phase schedule

  /** The animation constants: frames of the initial point, of line
      growth, of wave growth (and of wave shrink), of line shrink, the
      circle offsets, and the number of samples on the reference line. */
  datatype Timing = Timing(
    pointFrames: int,
    lineGrowthFrames: int,
    waveFrames: int,
    line2PointFrames: int,
    waveGrow: int,
    waveShrink: int,
    maxLen: int)

  /** The values the runners use. */
  const Defaults: Timing := Timing(2, 3, 5, 5, 10, 10, 100)

  /** The constants under which every phase's geometry is defined. */
  predicate Usable(c: Timing)
  {
    c.lineGrowthFrames > 1 && c.waveFrames > 0 && c.line2PointFrames > 0 && c.maxLen >= 1
  }

  datatype Phase = Point | LineGrowth | WaveGrow | WaveShrink | LineShrink | Circles

  /** Position of a phase in the animation. */
  function Rank(p: Phase): nat
  {
    match p
    case Point => 0
    case LineGrowth => 1
    case WaveGrow => 2
    case WaveShrink => 3
    case LineShrink => 4
    case Circles => 5
  }

  /** The `if/elif` chain of the frame loop, first match wins. No `else`
      closes it, so a frame index no guard accepts would get no phase; the
      guards overlap enough that this never happens, whatever the constants. */
  function DispatchChain(t: int, c: Timing): (r: Option<Phase>)
    ensures r.Some?
  {
    var p, l, w := c.pointFrames, c.lineGrowthFrames, c.waveFrames;
    if t <= p + 1 then Some(Point)
    else if p - 1 <= t <= p + l then Some(LineGrowth)
    else if p + l <= t < p + l + w then Some(WaveGrow)
    else if p + l + w <= t <= p + l + w * 2 then Some(WaveShrink)
    else if p + l + w * 2 <= t <= p + l * 2 + w * 2 then Some(LineShrink)
    else if t > p + l * 2 + w * 2 then Some(Circles)
    else None
  }

  /** The phase a frame index gets. */
  function PhaseOf(t: int, c: Timing): Phase
  {
    DispatchChain(t, c).value
  }

  /** With at least one line-growth and one wave frame, the ranges each
      phase effectively covers once earlier guards have taken their share:
      the point phase shadows line growth's lower bound, line growth takes
      the first frame of the wave guard, and wave shrink the first frame of
      the line-shrink guard. */
  lemma PhaseRanges(t: int, c: Timing)
    requires c.lineGrowthFrames >= 1 && c.waveFrames >= 1
    ensures var p, l, w := c.pointFrames, c.lineGrowthFrames, c.waveFrames;
      (PhaseOf(t, c) == Point <==> t <= p + 1)
      && (PhaseOf(t, c) == LineGrowth <==> p + 1 < t <= p + l)
      && (PhaseOf(t, c) == WaveGrow <==> p + l < t < p + l + w)
      && (PhaseOf(t, c) == WaveShrink <==> p + l + w <= t <= p + l + 2 * w)
      && (PhaseOf(t, c) == LineShrink <==> p + l + 2 * w < t <= p + 2 * l + 2 * w)
      && (PhaseOf(t, c) == Circles <==> t > p + 2 * l + 2 * w)
  {
  }

  /** The ranges with the runners' constants: 1..3 point, 4..5 line growth,
      6..9 wave growth, 10..15 wave shrink, 16..18 line shrink, 19 on circles. */
  lemma DefaultPhaseRanges(t: int)
    ensures (PhaseOf(t, Defaults) == Point <==> t <= 3)
      && (PhaseOf(t, Defaults) == LineGrowth <==> 4 <= t <= 5)
      && (PhaseOf(t, Defaults) == WaveGrow <==> 6 <= t <= 9)
      && (PhaseOf(t, Defaults) == WaveShrink <==> 10 <= t <= 15)
      && (PhaseOf(t, Defaults) == LineShrink <==> 16 <= t <= 18)
      && (PhaseOf(t, Defaults) == Circles <==> t >= 19)
  {
    PhaseRanges(t, Defaults);
  }

  /** Phases never go back: a later frame is in the same or a later phase. */
  lemma PhaseOrderMonotone(t: int, t': int, c: Timing)
    requires c.lineGrowthFrames >= 1 && c.waveFrames >= 1 && t <= t'
    ensures Rank(PhaseOf(t, c)) <= Rank(PhaseOf(t', c))
  {
    PhaseRanges(t, c);
    PhaseRanges(t', c);
  }

  // ---------------------------------------------------------------------
  // Line shrink, wave amplitude in phase, first circle frames

  /** The line length during line shrink:
      `int(interp(t - (P + L + 2W), [0, LINE_2_POINT], [MAX_LEN, 1]))`. */
  function LineShrinkLength(t: int, c: Timing): (r: int)
    requires c.line2PointFrames > 0 && c.maxLen >= 1
    ensures 1 <= r <= c.maxLen
    ensures t <= c.pointFrames + c.lineGrowthFrames + 2 * c.waveFrames ==> r == c.maxLen
    ensures t >= c.pointFrames + c.lineGrowthFrames + 2 * c.waveFrames + c.line2PointFrames ==> r == 1
  {
    var shrinkTime := t - (c.pointFrames + c.lineGrowthFrames + c.waveFrames * 2);
    Trunc(Interp(shrinkTime as real, 0.0, c.line2PointFrames as real, c.maxLen as real, 1.0))
  }

  /** The shrinking line never grows back. */
  lemma LineShrinkMonotone(t: int, t': int, c: Timing)
    requires c.line2PointFrames > 0 && c.maxLen >= 1 && t <= t'
    ensures LineShrinkLength(t', c) <= LineShrinkLength(t, c)
  {
    var base := c.pointFrames + c.lineGrowthFrames + c.waveFrames * 2;
    var x1, y0 := c.line2PointFrames as real, c.maxLen as real;
    InterpMonotone((t - base) as real, (t' - base) as real, 0.0, x1, y0, 1.0);
    TruncMonotone(Interp((t' - base) as real, 0.0, x1, y0, 1.0), Interp((t - base) as real, 0.0, x1, y0, 1.0));
  }

  /** With the runners' constants the three line-shrink frames show 80, 60
      and 40 samples: the phase ends before the line is down to a point. */
  lemma DefaultLineShrinkLengths()
    ensures LineShrinkLength(16, Defaults) == 80
    ensures LineShrinkLength(17, Defaults) == 60
    ensures LineShrinkLength(18, Defaults) == 40
  {
    assert Interp(1.0, 0.0, 5.0, 100.0, 1.0) == 80.2;
    assert Interp(2.0, 0.0, 5.0, 100.0, 1.0) == 60.4;
    assert Interp(3.0, 0.0, 5.0, 100.0, 1.0) == 40.6;
  }

  /** In the wave-growth frames (6..9) the amplitude factor is 0.2, 0.4, 0.6
      or 0.8: never 0 and never the full waveform. In the wave-shrink frames
      (10..15) it falls from 1 to 0. */
  lemma DefaultWaveAmplitudes(t: int)
    ensures PhaseOf(t, Defaults) == WaveGrow ==>
      GrowAlpha(t, 2, 3, 5) == (t - 5) as real / 5.0 && 0.0 < GrowAlpha(t, 2, 3, 5) < 1.0
    ensures PhaseOf(t, Defaults) == WaveShrink ==>
      ShrinkAlpha(t, 2, 3, 5) == 1.0 - (t - 10) as real / 5.0 && 0.0 <= ShrinkAlpha(t, 2, 3, 5) <= 1.0
    ensures ShrinkAlpha(10, 2, 3, 5) == 1.0 && ShrinkAlpha(15, 2, 3, 5) == 0.0
  {
    DefaultPhaseRanges(t);
  }

  /** The first circle frame (19) has circle time -1, so every radius is
      negative and every station is gray; frame 20 has radius 0. */
  lemma DefaultFirstCircleFrames(station: (real, real), lat0: real, lon0: real)
    ensures PhaseOf(19, Defaults) == Circles
    ensures !Reached(station, lat0, lon0, 19 - (Defaults.waveGrow + Defaults.waveShrink))
    ensures Radii(20 - (Defaults.waveGrow + Defaults.waveShrink)) == [0.0, 0.0, 0.0]
  {
    DefaultPhaseRanges(19);
    NoStationReachedEarly(station, lat0, lon0, -1);
  }

  // ---------------------------------------------------------------------
  // Zoom and frame names

  /** `zoom_start + (zoom_end - zoom_start) * (t / FRAMES_NUMBER)`. */
  function Zoom(t: int, framesNumber: int): real
    requires framesNumber > 0
  {
    4.5 + (10.5 - 4.5) * (t as real / framesNumber as real)
  }

  /** The zoom rises strictly with the frame index, from 4.5 at frame 0 to
      10.5 at the last frame. */
  lemma ZoomSchedule(t: int, t': int, n: int)
    requires n > 0 && t < t'
    ensures Zoom(t, n) < Zoom(t', n)
    ensures Zoom(0, n) == 4.5 && Zoom(n, n) == 10.5
  {
    var m := n as real;
    var a, b := t as real / m, t' as real / m;
    assert a * m == t as real && b * m == t' as real;
    if b <= a {
      MulNonneg(a - b, m);
    }
    assert Zoom(t, n) == 4.5 + 6.0 * a && Zoom(t', n) == 4.5 + 6.0 * b;
    assert 0 as real / m == 0.0;
    assert m / m == 1.0;
  }

  /** With 20 frames the middle frame is at zoom 7.5. */
  lemma ZoomExample()
    ensures Zoom(10, 20) == 7.5
  {
  }

  /** `frames/frame_{t:03}.png`. */
  function FrameName(t: nat): string
  {
    "frames/frame_" + Decimal.Pad3(t) + ".png"
  }

  lemma FrameNameParts(a: nat, b: nat)
    requires FrameName(a) == FrameName(b)
    ensures Decimal.Pad3(a) == Decimal.Pad3(b)
  {
    var p, x, y := "frames/frame_", Decimal.Pad3(a), Decimal.Pad3(b);
    assert |x| == |y|;
    assert x == FrameName(a)[|p|..|p| + |x|];
    assert y == FrameName(b)[|p|..|p| + |y|];
  }

  /** Distinct frames get distinct file names. */
  lemma FrameNameInjective(a: nat, b: nat)
    requires FrameName(a) == FrameName(b)
    ensures a == b
  {
    FrameNameParts(a, b);
    Decimal.Pad3Injective(a, b);
  }

  /** Up to frame 999 the names sort in frame order, so a lexicographic sort
      of the file names plays the frames in order. */
  lemma FrameNamesSortInOrder(a: nat, b: nat)
    requires a < b < 1000
    ensures LexLess(FrameName(a), FrameName(b))
  {
    var p := "frames/frame_";
    Decimal.Pad3Ordered(a, b);
    Decimal.Pad3ThreeDigits(a);
    Decimal.Pad3ThreeDigits(b);
    LexLessBeforeSuffix(Decimal.Pad3(a), Decimal.Pad3(b), ".png", ".png");
    LexLessAfterPrefix(p, Decimal.Pad3(a) + ".png", Decimal.Pad3(b) + ".png");
    assert FrameName(a) == p + (Decimal.Pad3(a) + ".png");
    assert FrameName(b) == p + (Decimal.Pad3(b) + ".png");
  }

  /** From frame 1000 on the order breaks: frame 1000 sorts before frame 999. */
  lemma FrameNameOrderBreaksAt1000()
    ensures LexLess(FrameName(1000), FrameName(999))
  {
    var p := "frames/frame_";
    Decimal.Pad3OrderBreaksAt1000();
    Decimal.Pad3ThreeDigits(999);
    assert Decimal.Pad3(1000) == Decimal.Digits(1000);
    LexLessBreakpoint();
    LexLessAfterPrefix(p, Decimal.Pad3(1000) + ".png", Decimal.Pad3(999) + ".png");
    assert FrameName(1000) == p + (Decimal.Pad3(1000) + ".png");
    assert FrameName(999) == p + (Decimal.Pad3(999) + ".png");
  }

  lemma LexLessBreakpoint()
    ensures LexLess(Decimal.Pad3(1000) + ".png", Decimal.Pad3(999) + ".png")
  {
    Decimal.Pad3ThreeDigits(999);
    assert Decimal.Pad3(999) == "999";
    assert Decimal.Pad3(1000) == "1000" by {
      assert Decimal.Digits(1000) == "1000";
    }
  }

  /** The event annotation shown in the map corner: id and status, local
      time, depth and magnitude (the last two as the runner prints them). */
  function EventAnnotation(eventId: string, status: string, timeLocal: string, depth: string, magnitude: string): (r: string)
    ensures |r| >= 4 + |eventId| && r[..4] == "ID: " && r[4..4 + |eventId|] == eventId
  {
    "ID: " + eventId + " " + status + "<br>" + timeLocal + " Hora Local<br>Prof. " + depth
      + " Km.  Magnitud:  " + magnitude
  }

  // ---------------------------------------------------------------------
  // Station markers

  /** A station dict after `attach_distance_dict`, as a value. */
  datatype StationRow = StationRow(stationId: string, latitude: real, longitude: real, distance: real)

  function RowDistance(r: StationRow): real { r.distance }

  /** `sorted(station_list_temp, key=lambda x: x['distance'])`. */
  function OrderedRows(rows: seq<StationRow>): (r: seq<StationRow>)
    ensures |r| == |rows|
  {
    Sorting.SortByKeyOrdersAndPermutes(rows, RowDistance);
    assert |multiset(Sorting.SortByKey(rows, RowDistance))| == |multiset(rows)|;
    Sorting.SortByKey(rows, RowDistance)
  }

  /** The coordinate pairs in distance order, and the unzipped markers. */
  datatype StationLayout = StationLayout(latLon: seq<(real, real)>, markers: StationMarkers)

  predicate HasStationCode(r: StationRow)
  {
    |Split(r.stationId, '.')| >= 2
  }

  /** The marker data of the runner: coordinates and names (second
      '.'-part of the identifier) in distance order. A name-less identifier
      raises `IndexError`; no station at all makes the unpacking of
      `zip(*...)` raise `ValueError`. */
  function LayoutOf(rows: seq<StationRow>): (r: Result<StationLayout>)
    ensures r.Failure? <==> rows == [] || exists k :: 0 <= k < |rows| && !HasStationCode(OrderedRows(rows)[k])
    ensures r.Success? ==>
      var sorted := OrderedRows(rows);
      var m := r.value.markers;
      |sorted| == |rows| && |r.value.latLon| == |rows|
      && |m.lat| == |rows| && |m.lon| == |rows| && |m.names| == |rows|
      && forall i :: 0 <= i < |rows| ==>
           r.value.latLon[i] == (sorted[i].latitude, sorted[i].longitude)
           && m.lat[i] == sorted[i].latitude && m.lon[i] == sorted[i].longitude
           && HasStationCode(sorted[i]) && m.names[i] == Split(sorted[i].stationId, '.')[1]
  {
    var sorted := OrderedRows(rows);
    if exists k :: 0 <= k < |sorted| && !HasStationCode(sorted[k]) then Failure("IndexError")
    else if sorted == [] then Failure("ValueError")
    else
      var latLon := seq(|sorted|, i requires 0 <= i < |sorted| => (sorted[i].latitude, sorted[i].longitude));
      var names := seq(|sorted|, i requires 0 <= i < |sorted| => Split(sorted[i].stationId, '.')[1]);
      Success(StationLayout(latLon, StationMarkers(
        seq(|latLon|, i requires 0 <= i < |latLon| => latLon[i].1),
        seq(|latLon|, i requires 0 <= i < |latLon| => latLon[i].0),
        names)))
  }

  /** The markers come out in non-decreasing distance, hold exactly the
      input stations, and stations at equal distance keep their input
      order; the run fails exactly when there is no station or a station
      identifier without a code. */
  lemma StationOrderProperties(rows: seq<StationRow>, v: real)
    ensures Sorting.SortedBy(OrderedRows(rows), RowDistance)
    ensures multiset(OrderedRows(rows)) == multiset(rows)
    ensures Sorting.WithKey(OrderedRows(rows), RowDistance, v) == Sorting.WithKey(rows, RowDistance, v)
    ensures LayoutOf(rows).Failure? <==> rows == [] || exists k :: 0 <= k < |rows| && !HasStationCode(rows[k])
  {
    Sorting.SortByKeyOrdersAndPermutes(rows, RowDistance);
    Sorting.SortByKeyStable(rows, RowDistance, v);
    var sorted := OrderedRows(rows);
    if exists k :: 0 <= k < |rows| && !HasStationCode(rows[k]) {
      var k :| 0 <= k < |rows| && !HasStationCode(rows[k]);
      assert rows[k] in multiset(sorted);
      var j :| 0 <= j < |sorted| && sorted[j] == rows[k];
    }
    if exists k :: 0 <= k < |sorted| && !HasStationCode(sorted[k]) {
      var k :| 0 <= k < |sorted| && !HasStationCode(sorted[k]);
      assert sorted[k] in multiset(rows);
      assert |sorted| == |rows| by {
        assert |multiset(sorted)| == |multiset(rows)|;
      }
    }
  }

  /** Three stations at 10, 5 and 20 (in input order A, B, C) are shown as B, A, C. */
  lemma StationOrderExample()
    ensures OrderedRows([StationRow("EC.AAA", 0.0, 0.0, 10.0), StationRow("EC.BBB", 1.0, 1.0, 5.0),
                         StationRow("EC.CCC", 2.0, 2.0, 20.0)])
         == [StationRow("EC.BBB", 1.0, 1.0, 5.0), StationRow("EC.AAA", 0.0, 0.0, 10.0),
             StationRow("EC.CCC", 2.0, 2.0, 20.0)]
  {
    var a, b, c := StationRow("EC.AAA", 0.0, 0.0, 10.0), StationRow("EC.BBB", 1.0, 1.0, 5.0),
                   StationRow("EC.CCC", 2.0, 2.0, 20.0);
    assert [a, b, c][1..] == [b, c];
    assert [b, c][1..] == [c];
    assert [c][1..] == [];
    assert Sorting.SortByKey([c], RowDistance) == [c];
    assert Sorting.SortByKey([b, c], RowDistance) == [b, c];
    assert Sorting.InsertByKey(a, [c], RowDistance) == [a, c];
    assert Sorting.InsertByKey(a, [b, c], RowDistance) == [b, a, c];
  }

  /** The row a station entry stands for once its distance is attached. */
  function RowOf(s: StationUtils.StationEntry, eventLat: real, eventLon: real,
                 geodesic: (real, real, real, real) -> real): StationRow
    reads s
  {
    StationRow(s.stationId, s.latitude, s.longitude, geodesic(s.latitude, s.longitude, eventLat, eventLon))
  }

  /** The station preparation of the runner: attach the distance to every
      entry in place, then sort, take names and coordinates, and unzip. */
  method PrepareStations(list: seq<StationUtils.StationEntry>, eventLat: real, eventLon: real,
                         geodesic: (real, real, real, real) -> real)
    returns (r: Result<StationLayout>)
    modifies set k | 0 <= k < |list| :: list[k]
    ensures forall k :: 0 <= k < |list| ==>
      list[k].stationId == old(list[k].stationId) && list[k].latitude == old(list[k].latitude)
      && list[k].longitude == old(list[k].longitude) && list[k].elevation == old(list[k].elevation)
      && list[k].distance == Some(RowOf(list[k], eventLat, eventLon, geodesic).distance)
    ensures r == LayoutOf(seq(|list|, k requires 0 <= k < |list| reads list => RowOf(list[k], eventLat, eventLon, geodesic)))
  {
    var rows: seq<StationRow> := [];
    var i := 0;
    while i < |list|
      invariant 0 <= i <= |list|
      invariant forall k :: 0 <= k < |list| ==>
        list[k].stationId == old(list[k].stationId) && list[k].latitude == old(list[k].latitude)
        && list[k].longitude == old(list[k].longitude) && list[k].elevation == old(list[k].elevation)
      invariant forall k :: 0 <= k < i ==> list[k].distance == Some(RowOf(list[k], eventLat, eventLon, geodesic).distance)
      invariant |rows| == i && forall k :: 0 <= k < i ==> rows[k] == RowOf(list[k], eventLat, eventLon, geodesic)
    {
      var entry := list[i].AttachDistance(eventLat, eventLon, geodesic);
      rows := rows + [StationRow(entry.stationId, entry.latitude, entry.longitude, entry.distance.value)];
      i := i + 1;
    }
    assert rows == seq(|list|, k requires 0 <= k < |list| reads list => RowOf(list[k], eventLat, eventLon, geodesic));
    r := LayoutOf(rows);
  }

  // ---------------------------------------------------------------------
  // The frame loop

  /** Everything a frame is drawn from besides its index and the constants. */
  datatype Scene = Scene(
    lat0: real,
    lon0: real,
    lonTotal: seq<real>,
    waveform: seq<real>,
    verticalScale: real,
    circleColors: seq<string>,
    lineShrinkColor: string,
    stations: seq<(real, real)>,
    markers: StationMarkers,
    textMagnitude: seq<string>,
    sinAt: (nat, nat) -> real,
    cosAt: (nat, nat) -> real)

  /** The inline line-shrink frame: the centred window of the current
      length at the epicentre's latitude, then the stations. */
  function LineShrinkFrame(t: int, c: Timing, sc: Scene): (r: seq<Trace>)
    requires Usable(c) && |sc.lonTotal| == c.maxLen
    ensures |r| == 2 && r[1] == StationTrace(sc.markers, []) && r[0].color == sc.lineShrinkColor
    ensures r[0].lon == LineWindow(sc.lonTotal, c.maxLen, LineShrinkLength(t, c))
    ensures |r[0].lat| == |r[0].lon| && forall i :: 0 <= i < |r[0].lat| ==> r[0].lat[i] == sc.lat0
  {
    [LineTrace(LineWindow(sc.lonTotal, c.maxLen, LineShrinkLength(t, c)), sc.lat0, sc.lineShrinkColor),
     StationTrace(sc.markers, [])]
  }

  /** The traces of frame `t`, by phase. */
  function FrameData(t: int, c: Timing, sc: Scene): seq<Trace>
    requires Usable(c) && |sc.lonTotal| == c.maxLen
  {
    match PhaseOf(t, c)
    case Point => CreateInitialPointFrame(sc.lon0, sc.lat0, sc.markers)
    case LineGrowth =>
      CreateLineGrowthFrame(t, c.pointFrames, c.lineGrowthFrames, c.maxLen, sc.lonTotal, sc.lat0, sc.markers)
    case WaveGrow =>
      CreateSineWaveFrame(t, c.pointFrames, c.lineGrowthFrames, c.waveFrames, sc.waveform, sc.verticalScale,
                          sc.lonTotal, sc.lat0, sc.markers, true)
    case WaveShrink =>
      CreateSineWaveFrame(t, c.pointFrames, c.lineGrowthFrames, c.waveFrames, sc.waveform, sc.verticalScale,
                          sc.lonTotal, sc.lat0, sc.markers, false)
    case LineShrink => LineShrinkFrame(t, c, sc)
    case Circles =>
      CircleFrame(t, c.waveGrow, c.waveShrink, sc.lat0, sc.lon0, sc.circleColors, sc.stations, sc.markers,
                  sc.textMagnitude, sc.sinAt, sc.cosAt)
  }

  /** Every frame ends with the station markers: uncoloured before the
      circles, coloured by reach during them (followed by the magnitude). */
  lemma FrameEndsWithStations(t: int, c: Timing, sc: Scene)
    requires Usable(c) && |sc.lonTotal| == c.maxLen
    ensures var f := FrameData(t, c, sc);
      if PhaseOf(t, c) == Circles then
        |f| >= 2 && f[|f| - 2].lon == sc.markers.lon && f[|f| - 2].text == sc.markers.names
        && f[|f| - 1] == MagnitudeTrace(sc.lat0, sc.lon0, sc.textMagnitude)
      else
        |f| == 2 && f[1] == StationTrace(sc.markers, [])
  {
  }

  /** The colour the plain runner draws the line-shrink line in. */
  const PlainLineShrinkColor: string := "green"

  /** The frame loop of the runner: for t = 1..FRAMES_NUMBER, the frame's
      traces, its file name and its zoom level. Whatever line colour the
      scene carries, this runner draws the shrinking line in green. */
  method RenderFrames(framesNumber: int, c: Timing, sc: Scene)
    returns (frames: seq<seq<Trace>>, names: seq<string>, zooms: seq<real>)
    requires Usable(c) && |sc.lonTotal| == c.maxLen
    ensures |frames| == |names| == |zooms| == (if framesNumber > 0 then framesNumber else 0)
    ensures forall i :: 0 <= i < |frames| ==>
      frames[i] == FrameData(i + 1, c, sc.(lineShrinkColor := PlainLineShrinkColor))
      && names[i] == FrameName(i + 1) && zooms[i] == Zoom(i + 1, framesNumber)
    ensures forall i :: 0 <= i < |frames| && PhaseOf(i + 1, c) == LineShrink ==> |frames[i]| == 2 && frames[i][0].color == "green"
  {
    var plain := sc.(lineShrinkColor := PlainLineShrinkColor);
    frames, names, zooms := [], [], [];
    var t := 1;
    while t <= framesNumber
      invariant 1 <= t <= (if framesNumber > 0 then framesNumber + 1 else 1)
      invariant |frames| == t - 1 && |names| == t - 1 && |zooms| == t - 1
      invariant forall i :: 0 <= i < |frames| ==>
        frames[i] == FrameData(i + 1, c, plain) && names[i] == FrameName(i + 1) && zooms[i] == Zoom(i + 1, framesNumber)
      invariant forall i :: 0 <= i < |frames| && PhaseOf(i + 1, c) == LineShrink ==> |frames[i]| == 2 && frames[i][0].color == "green"
    {
      var frameData: seq<Trace>;
      match PhaseOf(t, c) {
      case Point =>
        frameData := CreateInitialPointFrame(plain.lon0, plain.lat0, plain.markers);
      case LineGrowth =>
        frameData := CreateLineGrowthFrame(t, c.pointFrames, c.lineGrowthFrames, c.maxLen, plain.lonTotal, plain.lat0, plain.markers);
      case WaveGrow =>
        frameData := CreateSineWaveFrame(t, c.pointFrames, c.lineGrowthFrames, c.waveFrames, plain.waveform,
                                         plain.verticalScale, plain.lonTotal, plain.lat0, plain.markers, true);
      case WaveShrink =>
        frameData := CreateSineWaveFrame(t, c.pointFrames, c.lineGrowthFrames, c.waveFrames, plain.waveform,
                                         plain.verticalScale, plain.lonTotal, plain.lat0, plain.markers, false);
      case LineShrink =>
        frameData := LineShrinkFrame(t, c, plain);
      case Circles =>
        frameData := CreateCircleFrames(t, c.waveGrow, c.waveShrink, plain.lat0, plain.lon0, plain.circleColors, plain.stations,
                                        plain.markers, plain.textMagnitude, plain.sinAt, plain.cosAt);
      }
      frames := frames + [frameData];
      names := names + [FrameName(t)];
      zooms := zooms + [Zoom(t, framesNumber)];
      t := t + 1;
    }
  }
}
