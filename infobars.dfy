/** The info-bar scene (iganima/infobars_scene.py): six labelled bars that
    grow from a sliver to their target widths over the frames, one image
    written per frame. The bars' widths are a buffer that every frame
    overwrites in place, as the scene replaces each bar. */
module InfoBars {
  import opened Wrappers
  import opened Strings
  import Decimal

  /** The target widths: magnitude, depth, location, province, date, time. */
  const Targets: seq<real> := [8.0, 6.0, 8.0, 6.0, 8.0, 6.0]

  const BarCount: nat := 6

  /** The widths alternate between the long and the short bar. */
  lemma TargetsAlternate(k: nat)
    requires k < BarCount
    ensures Targets[k] == (if k % 2 == 0 then 8.0 else 6.0)
  {
  }

  /** `0.1 + (target - 0.1) * (i + 1) / N`. */
  function BarWidth(target: real, i: int, n: int): real
    requires n > 0
  {
    0.1 + (target - 0.1) * (i + 1) as real / n as real
  }

  lemma DivStrict(a: real, a': real, b: real)
    requires a < a' && b > 0.0
    ensures a / b < a' / b
  {
    var q, q' := a / b, a' / b;
    assert q * b == a && q' * b == a';
    if q' <= q {
      MulNonnegReal(q - q', b);
    }
  }

  lemma MulNonnegReal(x: real, y: real)
    requires x >= 0.0 && y >= 0.0
    ensures x * y >= 0.0
  {
  }

  lemma MulPosReal(x: real, y: real)
    requires x > 0.0 && y > 0.0
    ensures x * y > 0.0
  {
  }

  /** The last frame shows every bar at exactly its target width. */
  lemma BarWidthReachesTarget(target: real, n: int)
    requires n > 0
    ensures BarWidth(target, n - 1, n) == target
  {
    var d, m := target - 0.1, n as real;
    assert (n - 1 + 1) as real == m;
    assert d * m / m == d;
  }

  lemma ScaleStrict(d: real, a: real, b: real, m: real)
    requires d > 0.0 && a < b && m > 0.0
    ensures d * a / m < d * b / m
  {
    MulPosReal(d, b - a);
    assert d * b - d * a == d * (b - a);
    DivStrict(d * a, d * b, m);
  }

  /** A bar longer than the sliver grows at every frame. */
  lemma BarWidthGrows(target: real, i: int, j: int, n: int)
    requires n > 0 && target > 0.1 && i < j
    ensures BarWidth(target, i, n) < BarWidth(target, j, n)
  {
    ScaleStrict(target - 0.1, (i + 1) as real, (j + 1) as real, n as real);
  }

  /** ... and stays above the sliver and at most its target. */
  lemma BarWidthBounds(target: real, i: int, n: int)
    requires n > 0 && target > 0.1 && 0 <= i < n
    ensures 0.1 < BarWidth(target, i, n) <= target
  {
    var d, m := target - 0.1, n as real;
    ScaleStrict(d, 0.0, (i + 1) as real, m);
    assert d * 0.0 / m == 0.0;
    if i + 1 < n {
      ScaleStrict(d, (i + 1) as real, m, m);
      assert d * m / m == d;
    } else {
      BarWidthReachesTarget(target, n);
    }
  }

  /** The widths of all six bars at frame `i`. */
  function WidthsAt(i: int, n: int): (r: seq<real>)
    requires n > 0
    ensures |r| == BarCount && forall k :: 0 <= k < BarCount ==> r[k] == BarWidth(Targets[k], i, n)
  {
    seq(BarCount, k requires 0 <= k < BarCount => BarWidth(Targets[k], i, n))
  }

  /** After the last frame every bar has its target width. */
  lemma WidthsAtLastFrame(n: int)
    requires n > 0
    ensures WidthsAt(n - 1, n) == Targets
  {
    forall k | 0 <= k < BarCount ensures WidthsAt(n - 1, n)[k] == Targets[k] {
      BarWidthReachesTarget(Targets[k], n);
    }
  }

  /** `info_{i:03}.png` in the output directory. */
  function InfoFrameName(outputDir: string, i: nat): string
  {
    PathJoin(outputDir, "info_" + Decimal.Pad3(i) + ".png")
  }

  /** Distinct frames are written to distinct files. */
  lemma InfoFrameNameInjective(outputDir: string, a: nat, b: nat)
    requires InfoFrameName(outputDir, a) == InfoFrameName(outputDir, b)
    ensures a == b
  {
    PathJoinCancel(outputDir, "info_", Decimal.Pad3(a), Decimal.Pad3(b), ".png");
    Decimal.Pad3Injective(a, b);
  }

  /** The event dict the scene reads its labels from. */
  type EventInfo = map<string, string>

  const LabelKeys: seq<string> := ["magnitude", "depth", "distance", "city", "province", "local_date", "local_time"]

  /** The six bar texts; a missing key raises `KeyError`. */
  function Labels(info: EventInfo): (r: Result<seq<string>>)
    ensures r.Failure? <==> exists k :: 0 <= k < |LabelKeys| && LabelKeys[k] !in info
    ensures r.Success? ==>
              ("local_date" in info && "local_time" in info && |r.value| == BarCount
               && r.value[4] == "Fecha: " + info["local_date"] && r.value[5] == "Hora: " + info["local_time"])
  {
    if exists k :: 0 <= k < |LabelKeys| && LabelKeys[k] !in info then Failure("KeyError")
    else
      assert forall k :: 0 <= k < |LabelKeys| ==> LabelKeys[k] in info;
      assert LabelKeys[0] == "magnitude" && LabelKeys[1] == "depth" && LabelKeys[2] == "distance";
      assert LabelKeys[3] == "city" && LabelKeys[4] == "province";
      assert LabelKeys[5] == "local_date" && LabelKeys[6] == "local_time";
      Success([
        "Magnitud " + info["magnitude"],
        info["depth"] + " Km. de profundidad",
        "a : " + info["distance"] + " Km. de  " + info["city"],
        "Provincia: " + info["province"],
        "Fecha: " + info["local_date"],
        "Hora: " + info["local_time"]])
  }

  /** The keys the event conversion of iganima_utils.py sets. */
  const EventDictKeys: set<string> :=
    {"magnitude", "latitude", "longitude", "depth", "datetime", "author", "event_id", "status", "time_local"}

  /** Any dict lacking `local_date` makes the scene fail. */
  lemma LabelsNeedLocalDate(info: EventInfo)
    requires "local_date" !in info
    ensures Labels(info).Failure?
  {
    assert LabelKeys[5] !in info;
  }

  /** The keys the caller adds after looking up the nearest town. */
  const NearestKeys: set<string> := {"distance", "city", "province"}

  /** The converted event dict, which carries the local time only as
      `time_local`, is such a dict, with or without the nearest-town keys
      the caller adds to it: the scene cannot label it. */
  lemma EventDictCannotBeLabelled(info: EventInfo)
    requires info.Keys <= EventDictKeys + NearestKeys
    ensures Labels(info).Failure?
  {
    assert "local_date" !in EventDictKeys + NearestKeys;
    LabelsNeedLocalDate(info);
  }

  const DefaultOutputDir: string := "frames_info"
  const DefaultFrames: int := 20

  class InfoBarsScene {
    const eventInfo: EventInfo
    const outputDir: string
    const nFrames: int
    /** Current width of each bar. */
    const widths: array<real>
    /** Centre of each bar, fixed by the layout. */
    const barCenters: seq<(real, real)>
    /** Current centre of each bar's text. */
    const textCenters: array<(real, real)>
    /** The frames written so far: file name and bar widths. */
    var written: seq<(string, seq<real>)>

    predicate Valid()
    {
      widths.Length == BarCount && textCenters.Length == BarCount && |barCenters| == BarCount
    }

    /** The scene for one event; `barCenters` is where the layout stacks
        the six bars. */
    constructor (eventInfo: EventInfo, outputDir: string, nFrames: int, barCenters: seq<(real, real)>)
      requires |barCenters| == BarCount
      ensures Valid() && fresh(widths) && fresh(textCenters) && written == []
      ensures this.eventInfo == eventInfo && this.outputDir == outputDir
      ensures this.nFrames == nFrames && this.barCenters == barCenters
    {
      this.eventInfo := eventInfo;
      this.outputDir := outputDir;
      this.nFrames := nFrames;
      this.barCenters := barCenters;
      widths := new real[BarCount];
      textCenters := new (real, real)[BarCount];
      written := [];
    }

    /** The scene with the keyword defaults: output to `frames_info`, 20 frames. */
    constructor WithDefaults(eventInfo: EventInfo, barCenters: seq<(real, real)>)
      requires |barCenters| == BarCount
      ensures Valid() && fresh(widths) && fresh(textCenters) && written == []
      ensures this.eventInfo == eventInfo && this.barCenters == barCenters
      ensures outputDir == DefaultOutputDir && nFrames == DefaultFrames
    {
      this.eventInfo := eventInfo;
      this.outputDir := DefaultOutputDir;
      this.nFrames := DefaultFrames;
      this.barCenters := barCenters;
      widths := new real[BarCount];
      textCenters := new (real, real)[BarCount];
      written := [];
    }

    /** `construct`: after the white background, the labels are read (a
        missing key stops the scene before any bar is added to the scene or
        any frame is written); the bars start as slivers of width
        0.01 with their texts on them; then at frame `i` every bar is
        replaced by one of width `BarWidth(target, i, N)` at the same
        centre, its text is re-centred on it, and the frame is written. */
    method Construct() returns (labels: Result<seq<string>>)
      requires Valid()
      modifies this`written, widths, textCenters
      ensures labels == Labels(eventInfo)
      ensures labels.Failure? ==>
        written == old(written) && widths[..] == old(widths[..]) && textCenters[..] == old(textCenters[..])
      ensures labels.Success? ==> |written| == |old(written)| + (if nFrames > 0 then nFrames else 0)
      ensures written[..|old(written)|] == old(written)
      ensures forall i :: 0 <= i < |written| - |old(written)| ==>
        written[|old(written)| + i] == (InfoFrameName(outputDir, i), WidthsAt(i, nFrames))
      ensures labels.Success? ==> textCenters[..] == barCenters
      ensures labels.Success? && nFrames > 0 ==> widths[..] == Targets
      ensures labels.Success? && nFrames <= 0 ==> forall k :: 0 <= k < BarCount ==> widths[k] == 0.01
    {
      labels := Labels(eventInfo);
      if labels.Failure? {
        return;
      }
      forall k | 0 <= k < BarCount {
        widths[k] := 0.01;
      }
      forall k | 0 <= k < BarCount {
        textCenters[k] := barCenters[k];
      }
      var n := nFrames;
      var i := 0;
      while i < n
        invariant 0 <= i && (n > 0 ==> i <= n) && (n <= 0 ==> i == 0)
        invariant |written| == |old(written)| + i && written[..|old(written)|] == old(written)
        invariant forall j :: 0 <= j < i ==> written[|old(written)| + j] == (InfoFrameName(outputDir, j), WidthsAt(j, n))
        invariant textCenters[..] == barCenters
        invariant i > 0 ==> widths[..] == WidthsAt(i - 1, n)
        invariant i == 0 ==> forall k :: 0 <= k < BarCount ==> widths[k] == 0.01
      {
        ReplaceBars(i, n);
        written := written + [(InfoFrameName(outputDir, i), widths[..])];
        i := i + 1;
      }
      if n > 0 {
        WidthsAtLastFrame(n);
      }
    }

    /** The inner loop: every bar replaced by one of its frame-`i` width at
        the same centre, and its text moved back onto it. */
    method ReplaceBars(i: int, n: int)
      requires Valid() && n > 0
      modifies widths, textCenters
      ensures widths[..] == WidthsAt(i, n) && textCenters[..] == barCenters
    {
      var idx := 0;
      while idx < BarCount
        invariant 0 <= idx <= BarCount
        invariant forall k :: 0 <= k < idx ==> widths[k] == BarWidth(Targets[k], i, n)
        invariant forall k :: 0 <= k < idx ==> textCenters[k] == barCenters[k]
      {
        widths[idx] := 0.1 + (Targets[idx] - 0.1) * (i + 1) as real / n as real;
        textCenters[idx] := barCenters[idx];
        idx := idx + 1;
      }
      assert widths[..] == WidthsAt(i, n);
      assert textCenters[..] == barCenters;
    }
  }
}
