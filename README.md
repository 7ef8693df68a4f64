# igsismani animation core in Dafny

This project models the deterministic part of igsismani, which turns a
seismic event into a map animation:

- **Frame-phase scheduler.** `run_iganima.py` and `run_iganima_text_panel.py`
  decide, for every frame index, which of six phases is drawn:
  - initial point;
  - line growth;
  - sine wave growing;
  - sine wave shrinking;
  - line shrinking;
  - concentric circles.
- **Per-phase geometry** (`iganima/iganima_functions.py`):
  - the reference line window;
  - the wave amplitude factor;
  - the circle radii;
  - the Red/Gray colouring of the stations the wavefront has reached.
- **Zoom schedule and frame file names**, with their zero-padded numbering
  and how the names sort.
- **Station bookkeeping** (`iganima/iganima_utils.py`):
  - the inventory look-up of `create_stations_dict`;
  - the in-place `attach_distance_dict`;
  - the runner's stable sort by distance;
  - `create_station_set`;
  - `order_trace_list_by_distance`;
  - `status`;
  - the pick identifier formula;
  - the event id split.
- **Configuration and text helpers of the styled runner:**
  - `_safe_get_section_value`;
  - the comment and description searches;
  - `_parse_bool`;
  - `_build_panel_theme`;
  - `_build_seismic_text_info`;
  - `expand_env`.
- **Styled text panel** (`iganima/iganima_text_panel.py`). A figure is a
  record of trace, shape, annotation and image lists, and the panel is
  assembled by appending to them.
- **Info-bar scene** (`iganima/infobars_scene.py`). Six bars grow
  frame by frame towards their target widths, and one image file is written
  per frame.

Floats are exact `real`s. Every input the code receives from outside is a
parameter of the model:
- the waveform samples;
- the sine and cosine of the circle's sample angles;
- the geodesic distance;
- the environment-variable expansion;
- the logos read from JSON;
- the colours chosen from the magnitude.

Modules, one file each:

| module | models |
|---|---|
| `Wrappers` | `Option` and `Result` |
| `Strings` | Python's `split`, `join`, `lower`, `strip`, `in`, string `<`, `os.path.join` |
| `Decimal` | `str(n)`, `f"{n:03}"`, `int(s)` |
| `Sorting` | `sorted(s, key=...)` with a numeric key (stable) |
| `Geometry` | iganima/iganima_functions.py |
| `Animation` | run_iganima.py |
| `StationUtils` | iganima/iganima_utils.py |
| `TextPanel` | iganima/iganima_text_panel.py |
| `StyledRunner` | run_iganima_text_panel.py |
| `InfoBars` | iganima/infobars_scene.py |

The modelling follows the source's own form:
- State the source updates in place is a class with `modifies` clauses:
  - the figure;
  - a station dict;
  - the bar-width and text-centre buffers of the info-bar scene.
- The loops below are methods with a loop, each proved against a
  specification function:
  - the frame loops;
  - `generate_circle`;
  - the colour loop;
  - the inventory mapping loop;
  - `create_stations_dict`;
  - `create_station_set`;
  - the runner's distance-attaching loop;
  - `order_trace_list_by_distance`;
  - `_build_panel_theme`;
  - the panel's block loop;
  - the bar loops.
- The early-return search loops of `_extract_comment_*` and
  `_get_event_description` are recursive functions
  (`FirstSegmentContaining`, `GetEventDescription`), each with an
  all-inputs specification lemma.
- Expression-only code is a function.

### Behaviour the code has, stated as the code has it

These points are proved about the code as written:
- **Shadowed guard.** The line-growth guard's lower bound `POINT_FRAMES - 1`
  is never reached, because the point phase catches those frames first. The
  effective ranges are:
  - 1..3 point;
  - 4..5 line growth;
  - 6..9 wave growth;
  - 10..15 wave shrink;
  - 16..18 line shrink;
  - 19 onwards circles.
- **Wave growth never reaches 0 or 1.** Its frames get amplitude factors
  0.2, 0.4, 0.6 and 0.8.
- **Line shrink stops at 40.** Its three frames show 80, 60 and 40 points of
  the line, so the line never shrinks to one point.
- **First circle frame.** It has circle time -1, so every radius is negative
  and every station is Gray.
- **Tie order in the station sort.** Stations at equal distance keep the
  order of the input list. That order comes from iterating a Python set, so
  it is not the order of the station code.
- **Info-bar labels.** The scene reads the keys `local_date` and
  `local_time`, which the event conversion of `iganima_utils.py` never sets;
  it sets `time_local`. `InfoBars.EventDictCannotBeLabelled` proves that such
  a dict, with or without the `distance`, `city` and `province` keys the
  caller adds, makes the scene raise `KeyError` after its white background
  is added, before any bar is added to the scene or any frame is written.

## Model

| member | source | states |
|---|---|---|
| Geometry.Repeat | iganima/iganima_functions.py:72 | `full_like`: `n` copies of the value, nothing else |
| Geometry.GenerateCircle | iganima/iganima_functions.py:32-39 | exactly `points` latitudes and longitudes, one per sample angle; with radius 0 every point is the centre |
| Geometry.CirclePointOnCircle | iganima/iganima_functions.py:36-38 | where sin² + cos² = 1, every generated point lies at distance `radius` from the centre |
| Geometry.Radii | iganima/iganima_functions.py:137 | exactly three radii, one per wavefront circle (their order and growth are stated by the lemmas about them) |
| Geometry.RadiiOrder | iganima/iganima_functions.py:137 | positive circle time: radii strictly nested, outermost first; time 0: all 0; negative time: all negative |
| Geometry.RadiiGrow | iganima/iganima_functions.py:152 | each radius grows strictly with circle time |
| Geometry.PlanarDistanceSquared | iganima/iganima_functions.py:153 | the squared planar distance is never negative |
| Geometry.WithinRadiusIsSqrtTest | iganima/iganima_functions.py:153-154 | for any square root of the squared distance, `distance <= radius` holds exactly when the model's test on squares holds |
| Geometry.StationColorList | iganima/iganima_functions.py:149-158 | one colour per station, in station order |
| Geometry.StationColors | iganima/iganima_functions.py:149-158 | the loop with early `break` gives "Red" exactly for stations within some radius (inclusive), "Gray" otherwise |
| Geometry.ReachedIffOuterRadius | iganima/iganima_functions.py:150-157 | from circle time 0 on, a station is Red exactly when it is within the outer radius 0.1·t |
| Geometry.NoStationReachedEarly | iganima/iganima_functions.py:152-157 | before circle time 0 no station is Red |
| Geometry.ReachedStaysReached | iganima/iganima_functions.py:150-157 | a Red station stays Red in every later frame |
| Geometry.CircleTraces | iganima/iganima_functions.py:137-147 | `zip` gives min(3, number of colours) circle outlines |
| Geometry.CreateCircleFrames | iganima/iganima_functions.py:132-183 | min(3, colours) outlines in colour order, each with 100 points, then the coloured station trace, then the magnitude trace |
| Geometry.CreateInitialPointFrame | iganima/iganima_functions.py:41-63 | the epicentre marker alone, then the uncoloured station markers |
| Geometry.Interp | iganima/iganima_functions.py:68 | `np.interp` with two samples: clamped to the end values outside the range and between them inside |
| Geometry.InterpMonotone | iganima/iganima_functions.py:68 | interpolation rises with rising samples and falls with falling ones |
| Geometry.TruncMonotone | iganima/iganima_functions.py:68 | `int()` truncation keeps order |
| Geometry.LineGrowthLength | iganima/iganima_functions.py:67-68 | the length is in [1, MAX_LEN]: 1 up to growth time 1, MAX_LEN from growth time L on |
| Geometry.LineGrowthMonotone | iganima/iganima_functions.py:67-68 | the growing line never gets shorter |
| Geometry.LineWindow | iganima/iganima_functions.py:69-71 | `2*(length//2)` longitudes, the slice starting at `MAX_LEN//2 - length//2` |
| Geometry.LineWindowExtremes | iganima/iganima_functions.py:69-71 | length 1 shows nothing; with an even MAX_LEN the full length shows the whole line |
| Geometry.LineWindowNested | iganima/iganima_functions.py:69-71 | a shorter window is the middle of a longer one (both centred on `MAX_LEN//2`) |
| Geometry.LineTrace | iganima/iganima_functions.py:72-82 | one latitude per longitude, each the epicentre's latitude |
| Geometry.CreateLineGrowthFrame | iganima/iganima_functions.py:65-94 | the window of the growth length at the epicentre's latitude, then the uncoloured stations |
| Geometry.GrowAlpha | iganima/iganima_functions.py:98-101 | at most 1, exactly 1 from wave time W on, 0 at wave time 0, negative before: not clamped below |
| Geometry.ShrinkAlpha | iganima/iganima_functions.py:102-106 | never negative, 1 at shrink time 0, 0 from shrink time W on, at most 1 once shrinking, above 1 before |
| Geometry.GrowAlphaMonotone | iganima/iganima_functions.py:98-101 | the growth factor never decreases |
| Geometry.ShrinkAlphaMonotone | iganima/iganima_functions.py:102-106 | the shrink factor never increases |
| Geometry.WaveLats | iganima/iganima_functions.py:108 | one latitude per waveform sample |
| Geometry.CreateSineWaveFrame | iganima/iganima_functions.py:96-130 | `lon_total` unchanged; latitude i is `lat0 + alpha·w[i]·scale` with the growing or shrinking factor; then the stations |
| Geometry.WaveDisplacement | iganima/iganima_functions.py:101-108 | factor 0 gives a flat line at the epicentre; a factor in [0, 1] displaces no point further than factor 1 would |
| Animation.DispatchChain | run_iganima.py:229-267 | the `if/elif` chain matches every frame index (no index falls through) |
| Animation.PhaseRanges | run_iganima.py:229-267 | the effective range of each phase under first-match evaluation, in terms of P, L, W |
| Animation.DefaultPhaseRanges | run_iganima.py:214-267 | with the runner's constants: 1..3 point, 4..5 line growth, 6..9 wave growth, 10..15 wave shrink, 16..18 line shrink, 19 on circles |
| Animation.PhaseOrderMonotone | run_iganima.py:229-267 | a later frame is never in an earlier phase |
| Animation.LineShrinkLength | run_iganima.py:239-240 | in [1, MAX_LEN]: MAX_LEN at shrink time 0, 1 from shrink time LINE_2_POINT on |
| Animation.LineShrinkMonotone | run_iganima.py:239-240 | the shrinking line never grows back |
| Animation.DefaultLineShrinkLengths | run_iganima.py:239-240 | frames 16, 17, 18 show 80, 60, 40 points, so the line never reaches 1 |
| Animation.DefaultWaveAmplitudes | run_iganima.py:233-236 | wave-growth frames get factors 0.2..0.8; shrink frames go from 1 down to 0 |
| Animation.DefaultFirstCircleFrames | run_iganima.py:266-267 | frame 19 is a circle frame with every station Gray; frame 20 has radii 0 |
| Animation.ZoomSchedule | run_iganima.py:273-275 | zoom strictly increasing in t, 4.5 at t = 0 and 10.5 at t = N |
| Animation.ZoomExample | run_iganima.py:273-275 | with N = 20, zoom(10) = 7.5 |
| Animation.FrameNameParts | run_iganima.py:270 | equal frame names have equal padded numbers |
| Animation.FrameNameInjective | run_iganima.py:270-271 | distinct frames get distinct names |
| Animation.FrameNamesSortInOrder | run_iganima.py:270-271 | up to frame 999 the names sort in frame order |
| Animation.FrameNameOrderBreaksAt1000 | run_iganima.py:270-271 | `frame_1000.png` sorts before `frame_999.png` |
| Animation.EventAnnotation | run_iganima.py:155 | the corner text starts with `ID: ` followed by the event id |
| Animation.OrderedRows | run_iganima.py:188 | the sort keeps the number of stations |
| Animation.LayoutOf | run_iganima.py:191-193 | fails exactly on an empty list (the `zip(*...)` unpacking) or an id without a second '.'-part; otherwise coordinates and names are index-aligned in sorted order |
| Animation.StationOrderProperties | run_iganima.py:188-193 | non-decreasing distance, same stations, ties in input order, and the failure condition in terms of the input |
| Animation.StationOrderExample | run_iganima.py:188 | distances 10, 5, 20 come out as the second, first, third station |
| Animation.PrepareStations | run_iganima.py:183-193 | attaches each station's geodesic distance in place, changes nothing else, and yields the layout of the rows |
| Animation.LineShrinkFrame | run_iganima.py:239-265 | the window of the shrink length at the epicentre's latitude, then the stations |
| Animation.FrameEndsWithStations | run_iganima.py:226-267 | every frame has the station markers, uncoloured before the circles, coloured after |
| Animation.RenderFrames | run_iganima.py:226-276 | one frame per index 1..N: frame i has the traces of its phase, name `frames/frame_{i:03}.png` and zoom(i); the shrinking line is green whatever the scene's line colour |
| StationUtils.NetworkEntries | iganima/iganima_utils.py:159-161 | one `(net, sta)` entry per station of the network |
| StationUtils.MappingOfKeys | iganima/iganima_utils.py:158-161 | a `(net, sta)` key is mapped exactly when the inventory lists it |
| StationUtils.MappingOfLastWins | iganima/iganima_utils.py:159-161 | a duplicated key keeps the last station listed |
| StationUtils.MappingOfSnoc | iganima/iganima_utils.py:161 | one more entry is one more dict assignment |
| StationUtils.BuildInventoryMapping | iganima/iganima_utils.py:158-161 | the nested loop builds the mapping of all entries in visiting order |
| StationUtils.AddNetwork | iganima/iganima_utils.py:160-161 | the inner loop adds one network's entries in order |
| StationUtils.StationEntry.constructor | iganima/iganima_utils.py:190-195 | the list entry carries the identifier and the station's coordinates, no distance |
| StationUtils.StationEntry.AttachDistance | iganima/iganima_utils.py:201-215 | sets the distance from the geodesic function, keeps every other field, returns the same object |
| StationUtils.AllTwoPartsMeans | iganima/iganima_utils.py:169-170 | every identifier unpacks into two '.'-parts |
| StationUtils.FoundIds | iganima/iganima_utils.py:169-175 | at most one kept identifier per input, each well formed and in the mapping |
| StationUtils.FoundIdsMembers | iganima/iganima_utils.py:169-175 | an identifier is kept exactly when it is in the set, well formed and in the inventory (unknown ones dropped silently) |
| StationUtils.CodeDictHasCode | iganima/iganima_utils.py:183-187 | every found station's code is a key of the code-keyed dict |
| StationUtils.CodeDictLastWins | iganima/iganima_utils.py:183-187 | the dict holds the coordinates of the last station with that code |
| StationUtils.CodeCollision | iganima/iganima_utils.py:183-195 | two networks with the same station code: the dict has fewer entries than the list |
| StationUtils.CodeDictSize | iganima/iganima_utils.py:183-187 | the dict never has more entries than found stations |
| StationUtils.CreateStationsDict | iganima/iganima_utils.py:156-198 | `ValueError` exactly when some identifier does not split in two; otherwise one fresh entry per found identifier, in order, and the code-keyed dict |
| StationUtils.VisitId | iganima/iganima_utils.py:169-195 | one loop turn: fails exactly on a malformed identifier, else extends the list and dict for a found one |
| StationUtils.AddFound | iganima/iganima_utils.py:175-195 | a found identifier adds one fresh entry at the end and one dict assignment |
| StationUtils.CreateStationSet | iganima/iganima_utils.py:257-270 | the set of the first trace's station of every stream; an empty stream raises |
| StationUtils.StationOrderKeys | iganima/iganima_utils.py:305-311 | the dict keys are distinct and are exactly the stations of the traces |
| StationUtils.Select | iganima/iganima_utils.py:314-317 | the traces selected for one station are all of that station and on the plot channel |
| StationUtils.GatherStations | iganima/iganima_utils.py:313-317 | every output trace is on the plot channel and belongs to a sorted key |
| StationUtils.CollectDistances | iganima/iganima_utils.py:305-311 | the first loop builds the station-to-distance dict (last value wins) and its key order |
| StationUtils.AppendStation | iganima/iganima_utils.py:315-317 | the inner loop appends that station's traces on the channel in input order |
| StationUtils.OrderTraceListByDistance | iganima/iganima_utils.py:294-319 | the loops compute the station-by-station gathering in sorted key order |
| StationUtils.OrderedByDistanceStable | iganima/iganima_utils.py:305-317 | each station's traces keep their input order |
| StationUtils.GatherSorted | iganima/iganima_utils.py:310-317 | gathering by ascending keys gives non-decreasing station distance |
| StationUtils.OrderedByDistanceSorted | iganima/iganima_utils.py:305-317 | the output is ordered by non-decreasing per-station distance (the last distance written) |
| StationUtils.GatherMultiset | iganima/iganima_utils.py:313-317 | with distinct keys, the gathered traces are exactly the channel's traces of those stations |
| StationUtils.OrderedByDistancePermutes | iganima/iganima_utils.py:313-317 | the output holds exactly the input traces on the plot channel, each once |
| StationUtils.Status | iganima/iganima_utils.py:321-336 | "automatic" gives "Preliminar", "manual"/"confirmed" give "Revisado", anything else "-" (both directions) |
| StationUtils.PickStationIdCollides | iganima/iganima_utils.py:76-77 | two different picks get the same `station_id` as written |
| StationUtils.PickStationIdEmptyLocation | iganima/iganima_utils.py:76-77 | with an empty location the formula gives `NET.STA..CHA` |
| StationUtils.SeedStationIdRoundTrip | iganima/iganima_utils.py:76-77 | the dotted `NET.STA.LOC.CHA` splits back into its four codes |
| StationUtils.SeedStationIdInjective | iganima/iganima_utils.py:76-77 | distinct picks get distinct dotted identifiers |
| StationUtils.EventIdPresence | iganima/iganima_utils.py:369 | `split("/")[2]` exists exactly when the resource id has two slashes |
| StationUtils.EventIdOfPath | iganima/iganima_utils.py:369 | for `a/b/c...` the event id is `c` |
| StyledRunner.SafeGet | run_iganima_text_panel.py:74-76 | the stored value unless the key is missing or the value is empty, then the default |
| StyledRunner.SafeGetNeverBlank | run_iganima_text_panel.py:74-76 | without a default the result is never `""`, and present exactly when a non-empty value is stored |
| StyledRunner.OrElse | run_iganima_text_panel.py:146-150 | Python `or`: the first value when non-empty, else the fallback |
| StyledRunner.ParseBool | run_iganima_text_panel.py:105-108 | no value gives the default; a value is true exactly when its stripped lower-case text is 1/true/yes/on |
| StyledRunner.ParseBoolIgnoresDefault | run_iganima_text_panel.py:105-108 | a present value decides alone |
| StyledRunner.ParseBoolUnrecognised | run_iganima_text_panel.py:105-108 | "maybe" gives false even with default true |
| StyledRunner.FirstSegmentContaining | run_iganima_text_panel.py:82-85 | for a keyword starting with a visible character, a found segment is never empty after stripping |
| StyledRunner.FirstSegmentContainingSpec | run_iganima_text_panel.py:82-85 | nothing found exactly when no segment mentions the keyword; otherwise the first such segment, stripped |
| StyledRunner.FirstSegmentContainingNone | run_iganima_text_panel.py:82-85 | nothing found: no segment mentions the keyword |
| StyledRunner.FirstSegmentContainingSome | run_iganima_text_panel.py:82-85 | found: the first segment that mentions the keyword, stripped |
| StyledRunner.ExtractCommentKeyword | run_iganima_text_panel.py:79-94 | the search both extractors share (`"km"` for distance, `"prov"` for province): None for an empty comment, else the first comma-separated segment mentioning the keyword, stripped; never an empty text for a keyword not starting with a space |
| StyledRunner.CommentExample | run_iganima_text_panel.py:79-85 | "N, 5 km" gives "5 km" |
| StyledRunner.GetEventDescription | run_iganima_text_panel.py:97-102 | a result comes from a description whose type mentions a keyword |
| StyledRunner.GetEventDescriptionSpec | run_iganima_text_panel.py:97-102 | the first description whose lower-case type mentions a keyword, text stripped; None exactly when there is none |
| StyledRunner.DistanceText | run_iganima_text_panel.py:143-150 | the location line is never empty |
| StyledRunner.ProvinceText | run_iganima_text_panel.py:152-158 | the province line is never empty |
| StyledRunner.ProvinceTextPriority | run_iganima_text_panel.py:152-158 | configured text, else the "prov" comment segment, else a non-empty "earthquake name"/"region" description, else "Por confirmar" |
| StyledRunner.DistanceTextPriority | run_iganima_text_panel.py:144-150 | configured text, else the "km" comment segment, else a non-empty region/area description, else "Lat. …, Lon. …" |
| StyledRunner.WithOverrides | run_iganima_text_panel.py:175-191 | each of the ten overrides (footer, icon text, four subtitles, status and date titles, marker flag by `_parse_bool`, marker colour) takes the configured value or keeps its own; content, status and date texts and the header subtitle pass through |
| StyledRunner.BuildSeismicTextInfo | run_iganima_text_panel.py:138-192 | location and province lines from their fallback chains, status from config else the event's, magnitude from the event |
| StyledRunner.UnconfiguredPanel | run_iganima_text_panel.py:138-192 | with nothing configured and no comment or description: coordinates, "Por confirmar", default header, marker shown |
| StyledRunner.ThemeKwargs | run_iganima_text_panel.py:112-124 | only theme field names are keys, and only the integer field can hold a number |
| StyledRunner.AddThemeArg | run_iganima_text_panel.py:114-124 | one field adds at most its own entry and leaves the others |
| StyledRunner.BuildPanelTheme | run_iganima_text_panel.py:111-127 | the loop builds the theme from the collected keyword arguments |
| StyledRunner.ThemeTextOverride | run_iganima_text_panel.py:113-127 | a configured map style replaces the default "light"; otherwise the default stays |
| StyledRunner.ThemeTextFields | run_iganima_text_panel.py:113-124 | every non-integer theme field gets a keyword argument exactly when configured non-empty, and it is the raw text, whatever the type test does |
| StyledRunner.ThemeFieldNamesDistinct | iganima/iganima_text_panel.py:19-35 | the seventeen dataclass fields have distinct names |
| StyledRunner.KwargsAfter | run_iganima_text_panel.py:113-124 | later fields never touch an earlier field's entry |
| StyledRunner.ExportScaleAsWritten | run_iganima_text_panel.py:118-124 | as written, a configured scale is passed on as raw text |
| StyledRunner.ExportScaleParsed | run_iganima_text_panel.py:118-122 | with the type test working, the scale is the parsed number, or 2 when it does not parse |
| StyledRunner.ExportScaleEntry | run_iganima_text_panel.py:113-124 | the export-scale entry in both readings of the type test |
| StyledRunner.ExpandEnvKeepsShape | run_iganima_text_panel.py:53-60 | expansion keeps the document's kinds, keys and lengths |
| StyledRunner.ExpandEnvIdentity | run_iganima_text_panel.py:53-60 | with nothing to expand the document is unchanged |
| StyledRunner.StyledDispatchAgrees | run_iganima_text_panel.py:264-356 | the chain closed by `else` gives every frame the same phase as the other runner |
| StyledRunner.FramePathInjective | run_iganima_text_panel.py:358 | distinct frames get distinct paths in the same directory |
| StyledRunner.FramePathsSortInOrder | run_iganima_text_panel.py:358 | up to frame 999 the paths sort in frame order |
| StyledRunner.StyledFrameData | run_iganima_text_panel.py:264-356 | the styled dispatch draws FrameData of its scene; the shrinking line takes the scene's colour, which this runner sets to `sinewave_color` where the plain runner uses green |
| StyledRunner.EventAnnotationBoxed | run_iganima_text_panel.py:218-221 | the corner text both runners build is never empty, so the styled frames always carry it as their one event box |
| StyledRunner.SaveStyledFrame | run_iganima_text_panel.py:358-375 | one iteration: the frame's path, its traces dressed with the panel, zoom and export scale |
| StyledRunner.RenderStyledFrames | run_iganima_text_panel.py:264-375 | one saved frame per index 1..N, frame i as specified |
| TextPanel.TextArg | iganima/iganima_text_panel.py:19-35 | a given text field overrides its default; an absent one keeps it |
| TextPanel.ThemeFrom | iganima/iganima_text_panel.py:11-35 | `PanelTheme(**kwargs)`: each given field overrides its default, export scale 2 unless given |
| TextPanel.ThemeFromNothing | iganima/iganima_text_panel.py:11-35 | no arguments give the default theme |
| TextPanel.FromEventDict | iganima/iganima_text_panel.py:67-95 | magnitude text, "<depth> km de profundidad", `time_local` or "", the given location and province, defaults elsewhere |
| TextPanel.BlockShapes | iganima/iganima_text_panel.py:417-453 | two rectangles over [y0, y1], x 0.03–0.97 and 0.03–0.55 |
| TextPanel.BlockHalfInsideCard | iganima/iganima_text_panel.py:417-453 | the accent rectangle lies inside the card |
| TextPanel.BlockAnnotations | iganima/iganima_text_panel.py:456-512 | title and bold value, plus the subtitle exactly when it is non-empty |
| TextPanel.BlockAnnotationsOrdered | iganima/iganima_text_panel.py:464-470 | for y0 < y1: y0 < subtitle < value < title < y1 |
| TextPanel.Blocks | iganima/iganima_text_panel.py:319-348 | exactly four blocks (magnitude, depth, location, province) |
| TextPanel.BlocksStackInsidePanel | iganima/iganima_text_panel.py:319-348 | the blocks stack top to bottom without touching, below the header and above the footer |
| TextPanel.AllBlockShapes | iganima/iganima_text_panel.py:350-370 | two shapes per block |
| TextPanel.AllBlockAnnotationsCount | iganima/iganima_text_panel.py:350-370 | two annotations per block plus one per subtitle |
| TextPanel.HeaderShapes | iganima/iganima_text_panel.py:236-281 | background, banner, and the icon disc exactly when there is an icon text |
| TextPanel.HeaderAnnotations | iganima/iganima_text_panel.py:268-317 | one title, plus one icon label when there is an icon text and one subtitle when the subtitle is non-empty |
| TextPanel.NonEmpty | iganima/iganima_text_panel.py:400 | the kept parts are all non-empty |
| TextPanel.FooterText | iganima/iganima_text_panel.py:398-400 | empty exactly when both parts are; the bullet appears only between two non-empty parts |
| TextPanel.FooterAnnotations | iganima/iganima_text_panel.py:371-411 | status row, date row, and the footer row exactly when footer or hashtags are non-empty |
| TextPanel.PanelCounts | iganima/iganima_text_panel.py:232-414 | 2 + [icon] + 8 shapes; [icon] + 1 + [subtitle] + block annotations + 2 + [footer] annotations |
| TextPanel.MagnitudeMarker | iganima/iganima_text_panel.py:205-229 | a marker at the epicentre labelled with the magnitude in the marker colour |
| TextPanel.LogoImages | iganima/iganima_text_panel.py:158-177 | the default logo alone for None, else the given logos |
| TextPanel.EventBox | iganima/iganima_text_panel.py:180-202 | nothing for an empty annotation, else exactly one with that text |
| TextPanel.Figure.constructor | run_iganima_text_panel.py:359 | a figure with the given traces and an empty layout |
| TextPanel.Figure.PrepareMapLayout | iganima/iganima_text_panel.py:132-156 | sets centre, zoom and map style, changes no list |
| TextPanel.Figure.AddLogoImages | iganima/iganima_text_panel.py:158-177 | existing images first, then the logos; nothing else changes |
| TextPanel.Figure.ApplyEventAnnotation | iganima/iganima_text_panel.py:180-202 | annotations unchanged for an empty text, else one appended after the existing ones |
| TextPanel.Figure.AddMagnitudeMarker | iganima/iganima_text_panel.py:205-229 | one trace appended, nothing else changes |
| TextPanel.Figure.ApplyTextPanel | iganima/iganima_text_panel.py:232-414 | existing shapes and annotations first, then the panel's, in drawing order |
| TextPanel.DrawBlocks | iganima/iganima_text_panel.py:350-370 | the block loop yields every block's shapes and annotations in order |
| TextPanel.EffectiveTheme | iganima/iganima_text_panel.py:112 | a given theme is used as is; None gives the default |
| TextPanel.SaveFrameWithTextPanel | iganima/iganima_text_panel.py:98-129 | default theme for None; logos, event box, the marker exactly when shown, panel; export scale of the theme |
| InfoBars.TargetsAlternate | iganima/infobars_scene.py:67 | target widths 8, 6, 8, 6, 8, 6 |
| InfoBars.BarWidthReachesTarget | iganima/infobars_scene.py:70 | at frame N-1 the width is exactly the target |
| InfoBars.BarWidthGrows | iganima/infobars_scene.py:68-70 | for a target above 0.1 the width grows strictly with the frame |
| InfoBars.BarWidthBounds | iganima/infobars_scene.py:68-70 | the width stays in (0.1, target] |
| InfoBars.WidthsAt | iganima/infobars_scene.py:69-70 | six widths, bar k at `0.1 + (target_k - 0.1)(i+1)/N` |
| InfoBars.WidthsAtLastFrame | iganima/infobars_scene.py:67-70 | after the last frame every bar has its target width |
| InfoBars.InfoFrameNameInjective | iganima/infobars_scene.py:85 | distinct frames are written to distinct files |
| InfoBars.Labels | iganima/infobars_scene.py:51-56 | `KeyError` exactly when a label key is missing; else six labels, the last two from `local_date` and `local_time` |
| InfoBars.LabelsNeedLocalDate | iganima/infobars_scene.py:55 | without `local_date` the scene fails |
| InfoBars.EventDictCannotBeLabelled | iganima/infobars_scene.py:55-56 | a dict holding only the event-conversion keys and the caller's `distance`, `city`, `province` makes the scene fail |
| InfoBars.InfoBarsScene.constructor | iganima/infobars_scene.py:12-18 | stores event, directory and frame count; nothing written yet |
| InfoBars.InfoBarsScene.WithDefaults | iganima/infobars_scene.py:12 | the keyword defaults: directory `frames_info`, 20 frames; nothing written yet |
| InfoBars.InfoBarsScene.Construct | iganima/infobars_scene.py:32-85 | labels read after the background, before any bar is added to the scene (failure changes nothing); N files `info_000.png`… with frame i's widths; texts on their bars; targets reached |
| InfoBars.InfoBarsScene.ReplaceBars | iganima/infobars_scene.py:69-80 | every bar gets its frame-i width and its text is re-centred |
| Decimal.Pad3RoundTrip | run_iganima.py:270 | `{n:03}` reads back as n |
| Decimal.Pad3Injective | run_iganima.py:270 | distinct numbers get distinct padded text |
| Decimal.Pad3Ordered | run_iganima.py:270 | below 1000 the padded text sorts in numeric order |
| Decimal.Pad3OrderBreaksAt1000 | run_iganima.py:270 | "1000" sorts before "999" |
| Decimal.ParseIntOfDigits | run_iganima_text_panel.py:120 | `int(str(n)) == n` |
| Decimal.ParseIntOfNegatedDigits | run_iganima_text_panel.py:120 | `int("-" + str(n)) == -n` |
| Strings.JoinSplit | run_iganima_text_panel.py:82 | joining the pieces of a split gives the comment back |
| Strings.SplitPieces | run_iganima_text_panel.py:82 | one piece more than separators, and no piece holds the separator |
| Strings.StripOfKeywordHolder | run_iganima_text_panel.py:83-84 | a segment holding a visible keyword is non-empty after stripping |
| Strings.PathJoinShape | run_iganima_text_panel.py:358 | `os.path.join`: an absolute name wins; otherwise directory, one separator when needed, name |
| Strings.PathJoinCancel | run_iganima_text_panel.py:358 | joined names with the same stem and extension are equal only when their middles are |
| Strings.PathJoinOrdered | run_iganima_text_panel.py:358 | joined names compare as their equally long middles |
| Sorting.SortByKeyOrdersAndPermutes | run_iganima.py:188 | `sorted`: ascending by key, same elements |
| Sorting.SortByKeyStable | run_iganima.py:188 | equal keys keep their input order |

## Left out

- **Network and files.** The FDSN client, `read_inventory`, `read_parameters`, the JSON file reading of `load_config_from_file` and `_load_logo_overlays`, and `clean_frame_directory` are not modelled. Their results are parameters: an inventory value, a configuration `map`, logos given as `Option<seq<Image>>`.
- **Rendering.** `fig.write_image`, `save_frame` of the plain runner, `compile_animation`, and Manim's rendering and `get_frame` are not modelled. A saved frame is modelled by what it would be drawn from: its path, traces, layout lists, zoom and scale.
- **Transcendental and library maths.** The waveform, `np.linspace`, the sine and cosine of the circle angles, `gps2dist_azimuth`, the timezone conversion and `round` are parameters or text inputs.
- **Colours from magnitude.** The module that picks circle colours, wave colour and vertical scale from the magnitude is not part of this model. Its results are fields of the scene.
- **Logging and the command line.** `configure_logging`, `argparse` and the `try/except` re-raising in `main` are not modelled.
- **DataFrames.** The pandas frames of `picks2dataframe` and `event2dataframe` are not modelled; only the pick identifier formula is.
- **Other event fields.** The rest of `event2dict` is not modelled; the event id split and `status` are.
- **Out of scope.** run_igsismani.py and the Manim panel runner are orchestration and rendering, and are not part of this model.
- **Plot styling.** Fonts, colours of text, anchors, opacities and the background rectangle of the info-bar scene are kept only where the layout depends on them.
- **Floating point.** Floats are exact reals. The wave-growth factors 0.2, 0.4 and so on are exact, where Python's float division may round.
- **Set iteration order.** Python's order over a set of identifiers is not modelled. `StationUtils.CreateStationsDict` takes the set as a sequence in iteration order, and its results hold for every order.
- Geometry.GenerateCircle: the sample angles' sine and cosine are parameter functions, so its contract states the formula per point rather than that the points lie on a circle. `Geometry.CirclePointOnCircle` adds that, assuming sin² + cos² = 1.
- Decimal.ParseIntOfDigits: the model's `int()` accepts ASCII digits, an optional sign and surrounding whitespace. Python's `int()` also accepts underscores between digits and non-ASCII digits, which the model rejects.
- Strings.StripOfKeywordHolder: `lower()` is modelled on ASCII letters only, and `isspace()` on the fixed list of whitespace characters Python recognises.
- StyledRunner.ExpandEnvIdentity: `os.path.expandvars` is a parameter function applied to every string, so the contracts are stated for any expansion function.
- InfoBars.InfoBarsScene.Construct: the bar positions produced by `arrange(DOWN, buff=0.05)` are an input (`barCenters`), and `self.wait(0.01)` is not modelled.
- **Plain runner's output directory.** The plain runner writes to `frames/` whatever directory is configured; it is modelled with that fixed prefix, as written.

## Findings

| source | as written | input that shows it | evidently intended | confidence | as-written member | corrected member |
|---|---|---|---|---|---|---|
| iganima/iganima_utils.py:75-77 | `station_id` is `net + "." + sta + "." + (loc if loc else ".") + cha`, with no dot between a non-empty location and the channel | location "0" with channel "0HZ" and location "00" with channel "HZ" both give `EC.ABC.00HZ` | the SEED form `NET.STA.LOC.CHA`, one dot between every two codes | high (not executed) | StationUtils.PickStationIdCollides | StationUtils.SeedStationIdInjective |
| run_iganima_text_panel.py:118 | `field.type is int`, but iganima/iganima_text_panel.py declares `from __future__ import annotations`, so `field.type` is the text `"int"` and the test is always false | `text_panel_export_scale = abc` yields `PanelTheme(export_scale="abc")`, passed on as the image scale | parse the integer field and keep the default 2 when it does not parse | high (not executed) | StyledRunner.ExportScaleAsWritten | StyledRunner.ExportScaleParsed |

Both readings of the type test are in the model. `StyledRunner.BuildPanelTheme` takes the test's outcome as a flag: `false` is the code as written, `true` is the corrected reading.
