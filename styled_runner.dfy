/** The styled runner (run_iganima_text_panel.py): configuration look-ups
    with fallbacks, the search of the event comment and descriptions for
    the panel texts, the panel theme built from the configuration, the
    environment expansion of the JSON configuration, and the frame loop
    that draws each frame and dresses it with the text panel. */
module StyledRunner {
  import opened Wrappers
  import opened Strings
  import Decimal
  import opened Geometry
  import opened Animation
  import opened TextPanel

  // ---------------------------------------------------------------------
  // Configuration look-ups

  /** One section of the INI configuration. */
  type Section = map<string, string>

  /** `_safe_get_section_value`: the stored value, unless it is missing or
      empty, in which case the default. (An empty section has no keys.) */
  function SafeGet(section: Section, key: string, default: Option<string>): (r: Option<string>)
    ensures key in section && section[key] != "" ==> r == Some(section[key])
    ensures key !in section || section[key] == "" ==> r == default
  {
    if key in section && section[key] != "" then Some(section[key]) else default
  }

  /** Without a default, a look-up yields a non-empty text or nothing: an
      empty configuration entry counts as absent. */
  lemma SafeGetNeverBlank(section: Section, key: string)
    ensures SafeGet(section, key, None) != Some("")
    ensures SafeGet(section, key, None).Some? <==> key in section && section[key] != ""
  {
  }

  /** Python's `a or b` on an optional text: `a` when it holds a non-empty
      text, `b` otherwise. */
  function OrElse(a: Option<string>, b: string): (r: string)
    ensures a.Some? && a.value != "" ==> r == a.value
    ensures a.None? || a.value == "" ==> r == b
  {
    if a.Some? && a.value != "" then a.value else b
  }

  /** `_parse_bool`: the default only when there is no value at all. */
  function ParseBool(value: Option<string>, default: bool): (r: bool)
    ensures value.None? ==> r == default
    ensures value.Some? ==> (r <==> Lower(Strip(value.value)) in {"1", "true", "yes", "on"})
  {
    if value.None? then default else Lower(Strip(value.value)) in {"1", "true", "yes", "on"}
  }

  /** A value that is present decides alone, whatever the default. */
  lemma ParseBoolIgnoresDefault(v: string, d: bool, d': bool)
    ensures ParseBool(Some(v), d) == ParseBool(Some(v), d')
  {
  }

  /** An unrecognised word gives false even when the default is true. */
  lemma ParseBoolUnrecognised()
    ensures ParseBool(Some("maybe"), true) == false
  {
    StripUnchanged("maybe");
    var w := Lower(Strip("maybe"));
    assert w == "maybe";
    assert w !in {"1", "true", "yes", "on"};
  }

  // ---------------------------------------------------------------------
  // Comment and description search

  predicate HasKeyword(segment: string, keyword: string)
  {
    Contains(Lower(segment), keyword)
  }

  /** The first segment whose lower-case form contains the keyword, stripped;
      for a keyword that starts with a visible character, never empty. */
  function FirstSegmentContaining(segments: seq<string>, keyword: string): (r: Option<string>)
    ensures r.Some? && keyword != [] && !IsSpace(keyword[0]) ==> r.value != ""
  {
    if segments == [] then None
    else if HasKeyword(segments[0], keyword) then
      if keyword != [] && !IsSpace(keyword[0]) then
        StripOfKeywordHolder(segments[0], keyword);
        Some(Strip(segments[0]))
      else Some(Strip(segments[0]))
    else FirstSegmentContaining(segments[1..], keyword)
  }

  /** The search finds something exactly when some segment mentions the
      keyword, and then it is the first such segment, stripped; `i` is
      that segment's index. */
  lemma FirstSegmentContainingSpec(segments: seq<string>, keyword: string) returns (i: nat)
    ensures var r := FirstSegmentContaining(segments, keyword);
      (r.None? ==> forall j :: 0 <= j < |segments| ==> !HasKeyword(segments[j], keyword))
      && (r.Some? ==>
            i < |segments| && HasKeyword(segments[i], keyword) && r.value == Strip(segments[i])
            && (forall j :: 0 <= j < i ==> !HasKeyword(segments[j], keyword)))
  {
    i := 0;
    if FirstSegmentContaining(segments, keyword).None? {
      FirstSegmentContainingNone(segments, keyword);
    } else {
      i := FirstSegmentContainingSome(segments, keyword);
    }
  }

  lemma {:induction false} FirstSegmentContainingNone(segments: seq<string>, keyword: string)
    requires FirstSegmentContaining(segments, keyword).None?
    ensures forall j :: 0 <= j < |segments| ==> !HasKeyword(segments[j], keyword)
  {
    if segments != [] {
      var tail := segments[1..];
      FirstSegmentContainingNone(tail, keyword);
      forall j | 0 <= j < |segments| ensures !HasKeyword(segments[j], keyword) {
        if j > 0 {
          assert segments[j] == tail[j - 1];
        }
      }
    }
  }

  lemma {:induction false} FirstSegmentContainingSome(segments: seq<string>, keyword: string) returns (i: nat)
    requires FirstSegmentContaining(segments, keyword).Some?
    ensures i < |segments| && HasKeyword(segments[i], keyword)
    ensures FirstSegmentContaining(segments, keyword).value == Strip(segments[i])
    ensures forall j :: 0 <= j < i ==> !HasKeyword(segments[j], keyword)
  {
    i := 0;
    if !HasKeyword(segments[0], keyword) {
      var tail := segments[1..];
      var k := FirstSegmentContainingSome(tail, keyword);
      i := k + 1;
      assert segments[i] == tail[k];
      forall j | 0 <= j < i ensures !HasKeyword(segments[j], keyword) {
        if j > 0 {
          assert segments[j] == tail[j - 1];
        }
      }
    }
  }

  /** The search both comment extractors share: None for an empty comment,
      else the first comma-separated segment that mentions `keyword`. */
  function ExtractCommentKeyword(comment: string, keyword: string): (r: Option<string>)
    ensures comment == "" ==> r.None?
    ensures comment != "" ==> r == FirstSegmentContaining(Split(comment, ','), keyword)
    ensures r.Some? && keyword != "" && !IsSpace(keyword[0]) ==> r.value != ""
  {
    if comment == "" then None else FirstSegmentContaining(Split(comment, ','), keyword)
  }

  /** `_extract_comment_distance`: the segment that mentions "km". */
  function ExtractCommentDistance(comment: string): Option<string>
  {
    ExtractCommentKeyword(comment, "km")
  }

  /** `_extract_comment_province`: the segment that mentions "prov". */
  function ExtractCommentProvince(comment: string): Option<string>
  {
    ExtractCommentKeyword(comment, "prov")
  }

  /** An example comment: the segment that mentions "km" is found and trimmed. */
  lemma CommentExample()
    ensures ExtractCommentDistance("N, 5 km") == Some("5 km")
  {
    var a, b := "N", " 5 km";
    ExampleSegments(a, b);
    ExampleKeyword(a, b);
    ExampleStrip(b);
    assert [a, b][1..] == [b];
  }

  lemma ExampleSegments(a: string, b: string)
    requires a == "N" && b == " 5 km"
    ensures Split("N, 5 km", ',') == [a, b]
  {
    assert "N, 5 km" == a + [','] + b;
    SplitAfterPiece(a, ',', b);
    SplitWithoutSeparator(b, ',');
  }

  lemma ExampleKeyword(a: string, b: string)
    requires a == "N" && b == " 5 km"
    ensures !HasKeyword(a, "km") && HasKeyword(b, "km")
  {
    assert Lower(a) == "n";
    assert !Contains("n"[1..], "km");
    assert Lower(b) == b;
    assert "km" <= b[3..];
    assert b[1..][1..][1..] == b[3..];
    assert Contains(b[2..], "km");
    assert Contains(b[1..], "km");
  }

  lemma ExampleStrip(b: string)
    requires b == " 5 km"
    ensures Strip(b) == "5 km"
  {
    assert StripLeft(b[1..]) == b[1..];
    assert StripRight(b[1..]) == b[1..];
  }

  /** An event description: its type, if any, and its text. */
  datatype Description = Description(kind: Option<string>, text: string)

  /** `any(keyword in text for keyword in keywords)`. */
  predicate AnyKeywordIn(text: string, keywords: seq<string>)
  {
    keywords != [] && (Contains(text, keywords[0]) || AnyKeywordIn(text, keywords[1..]))
  }

  /** `(description.type or "").lower()` mentions one of the keywords. */
  predicate TypeMatches(d: Description, keywords: seq<string>)
  {
    AnyKeywordIn(Lower(d.kind.GetOr("")), keywords)
  }

  /** `_get_event_description`: the stripped text of the first description
      whose type mentions one of the keywords. */
  function GetEventDescription(descriptions: seq<Description>, keywords: seq<string>): (r: Option<string>)
    ensures r.Some? ==> exists i :: 0 <= i < |descriptions| && TypeMatches(descriptions[i], keywords)
  {
    if descriptions == [] then None
    else if TypeMatches(descriptions[0], keywords) then Some(Strip(descriptions[0].text))
    else
      var r := GetEventDescription(descriptions[1..], keywords);
      assert r.Some? ==> exists i :: 1 <= i < |descriptions| && TypeMatches(descriptions[i], keywords) by {
        if r.Some? {
          var i :| 0 <= i < |descriptions[1..]| && TypeMatches(descriptions[1..][i], keywords);
          assert descriptions[i + 1] == descriptions[1..][i];
        }
      }
      r
  }

  /** The description found is the first whose type matches, and there is
      one exactly when some type matches; `i` is its index. */
  lemma {:induction false} GetEventDescriptionSpec(descriptions: seq<Description>, keywords: seq<string>) returns (i: nat)
    ensures var r := GetEventDescription(descriptions, keywords);
      (r.None? ==> forall j :: 0 <= j < |descriptions| ==> !TypeMatches(descriptions[j], keywords))
      && (r.Some? ==>
            i < |descriptions| && TypeMatches(descriptions[i], keywords)
            && r.value == Strip(descriptions[i].text)
            && (forall j :: 0 <= j < i ==> !TypeMatches(descriptions[j], keywords)))
  {
    i := 0;
    if descriptions != [] && !TypeMatches(descriptions[0], keywords) {
      var tail := descriptions[1..];
      var k := GetEventDescriptionSpec(tail, keywords);
      i := k + 1;
      assert forall j :: 1 <= j < |descriptions| ==> descriptions[j] == tail[j - 1];
    }
  }

  // ---------------------------------------------------------------------
  // Panel content from event and configuration

  /** What the panel needs from the event dict, numbers as Python prints them. */
  datatype EventTexts = EventTexts(
    magnitude: string,
    depth: string,
    latitude: string,
    longitude: string,
    timeLocal: Option<string>,
    status: string)

  /** `event_obj.comments[0].text if event_obj.comments else ""`. */
  function CommentText(comments: seq<string>): string
  {
    if comments == [] then "" else comments[0]
  }

  function CoordinatesText(ev: EventTexts): string
  {
    "Lat. " + ev.latitude + "\U{b0}, Lon. " + ev.longitude + "\U{b0}"
  }

  /** The location line: configured text, else the comment's "km" segment,
      else a region or area description, else the coordinates. */
  function DistanceText(ev: EventTexts, comments: seq<string>, descriptions: seq<Description>, config: Section): (r: string)
    ensures r != ""
  {
    match SafeGet(config, "text_panel_distance_text", None)
    case Some(v) => v
    case None =>
      OrElse(ExtractCommentDistance(CommentText(comments)),
        OrElse(GetEventDescription(descriptions, ["region", "area"]), CoordinatesText(ev)))
  }

  /** The province line: configured text, else the comment's "prov" segment,
      else an earthquake-name or region description, else "Por confirmar". */
  function ProvinceText(comments: seq<string>, descriptions: seq<Description>, config: Section): (r: string)
    ensures r != ""
  {
    match SafeGet(config, "text_panel_province_text", None)
    case Some(v) => v
    case None =>
      OrElse(ExtractCommentProvince(CommentText(comments)),
        OrElse(GetEventDescription(descriptions, ["earthquake name", "region"]), "Por confirmar"))
  }

  /** The fallback order of the location line, tier by tier. */
  lemma DistanceTextPriority(ev: EventTexts, comments: seq<string>, descriptions: seq<Description>, config: Section)
    ensures var key := "text_panel_distance_text";
      var fromComment := ExtractCommentDistance(CommentText(comments));
      var fromDescription := GetEventDescription(descriptions, ["region", "area"]);
      var r := DistanceText(ev, comments, descriptions, config);
      (key in config && config[key] != "" ==> r == config[key])
      && (!(key in config && config[key] != "") && fromComment.Some? ==> r == fromComment.value)
      && (!(key in config && config[key] != "") && fromComment.None? && fromDescription.Some? && fromDescription.value != ""
          ==> r == fromDescription.value)
      && ((!(key in config && config[key] != "") && fromComment.None?
           && (fromDescription.None? || fromDescription.value == ""))
          ==> r == CoordinatesText(ev))
  {
  }

  /** The fallback order of the province line, tier by tier. */
  lemma ProvinceTextPriority(comments: seq<string>, descriptions: seq<Description>, config: Section)
    ensures var key := "text_panel_province_text";
      var fromComment := ExtractCommentProvince(CommentText(comments));
      var fromDescription := GetEventDescription(descriptions, ["earthquake name", "region"]);
      var r := ProvinceText(comments, descriptions, config);
      (key in config && config[key] != "" ==> r == config[key])
      && (!(key in config && config[key] != "") && fromComment.Some? ==> r == fromComment.value)
      && (!(key in config && config[key] != "") && fromComment.None? && fromDescription.Some? && fromDescription.value != ""
          ==> r == fromDescription.value)
      && ((!(key in config && config[key] != "") && fromComment.None?
           && (fromDescription.None? || fromDescription.value == ""))
          ==> r == "Por confirmar")
  {
  }

  /** Both runners build the same corner text, which is never empty, so
      the styled runner's frames always carry it in their event box. */
  lemma EventAnnotationBoxed(eventId: string, status: string, timeLocal: string, depth: string, magnitude: string)
    ensures var a := EventAnnotation(eventId, status, timeLocal, depth, magnitude);
      |EventBox(a)| == 1 && EventBox(a)[0].text == a
  {
  }

  /** Configuration overrides of the panel content read by
      `_build_seismic_text_info`. */
  function WithOverrides(info: SeismicTextInfo, config: Section): (r: SeismicTextInfo)
    ensures r.magnitudeValue == info.magnitudeValue && r.depthText == info.depthText
    ensures r.locationText == info.locationText && r.provinceText == info.provinceText
    ensures r.headerTitle == info.headerTitle && r.hashtagsText == info.hashtagsText
    ensures r.footerText == SafeGet(config, "text_panel_footer_text", Some(info.footerText)).value
    ensures r.headerIconText == SafeGet(config, "text_panel_header_icon_text", info.headerIconText)
    ensures r.magnitudeSubtitle == SafeGet(config, "text_panel_magnitude_subtitle", Some(info.magnitudeSubtitle)).value
    ensures r.depthSubtitle == SafeGet(config, "text_panel_depth_subtitle", Some(info.depthSubtitle)).value
    ensures r.locationSubtitle == SafeGet(config, "text_panel_location_subtitle", Some(info.locationSubtitle)).value
    ensures r.provinceSubtitle == SafeGet(config, "text_panel_province_subtitle", Some(info.provinceSubtitle)).value
    ensures r.statusTitle == SafeGet(config, "text_panel_status_title", Some(info.statusTitle)).value
    ensures r.dateTitle == SafeGet(config, "text_panel_date_title", Some(info.dateTitle)).value
    ensures r.showMagnitudeMarker == ParseBool(SafeGet(config, "text_panel_show_magnitude_marker", None), info.showMagnitudeMarker)
    ensures r.magnitudeMarkerColor == SafeGet(config, "text_panel_magnitude_marker_color", Some(info.magnitudeMarkerColor)).value
    ensures r.statusText == info.statusText && r.dateText == info.dateText && r.headerSubtitle == info.headerSubtitle
  {
    info.(
      footerText := SafeGet(config, "text_panel_footer_text", Some(info.footerText)).value,
      headerIconText := SafeGet(config, "text_panel_header_icon_text", info.headerIconText),
      magnitudeSubtitle := SafeGet(config, "text_panel_magnitude_subtitle", Some(info.magnitudeSubtitle)).value,
      depthSubtitle := SafeGet(config, "text_panel_depth_subtitle", Some(info.depthSubtitle)).value,
      locationSubtitle := SafeGet(config, "text_panel_location_subtitle", Some(info.locationSubtitle)).value,
      provinceSubtitle := SafeGet(config, "text_panel_province_subtitle", Some(info.provinceSubtitle)).value,
      statusTitle := SafeGet(config, "text_panel_status_title", Some(info.statusTitle)).value,
      dateTitle := SafeGet(config, "text_panel_date_title", Some(info.dateTitle)).value,
      showMagnitudeMarker := ParseBool(SafeGet(config, "text_panel_show_magnitude_marker", None), info.showMagnitudeMarker),
      magnitudeMarkerColor := SafeGet(config, "text_panel_magnitude_marker_color", Some(info.magnitudeMarkerColor)).value)
  }

  /** `_build_seismic_text_info`. */
  function BuildSeismicTextInfo(ev: EventTexts, comments: seq<string>, descriptions: seq<Description>,
                                config: Section): (r: SeismicTextInfo)
    ensures r.locationText == DistanceText(ev, comments, descriptions, config) && r.locationText != ""
    ensures r.provinceText == ProvinceText(comments, descriptions, config) && r.provinceText != ""
    ensures r.statusText == SafeGet(config, "text_panel_status_text", Some(ev.status)).value
    ensures r.magnitudeValue == ev.magnitude
  {
    var info := FromEventDict(
      ev.magnitude, ev.depth, ev.timeLocal,
      DistanceText(ev, comments, descriptions, config),
      ProvinceText(comments, descriptions, config),
      SafeGet(config, "text_panel_status_text", Some(ev.status)).value,
      SafeGet(config, "text_panel_hashtags_text", Some("")).value,
      SafeGet(config, "text_panel_header_title", Some("INFORMATIVO SISMO")).value,
      SafeGet(config, "text_panel_header_subtitle", Some("Actualizaci\U{f3}n")).value);
    WithOverrides(info, config)
  }

  /** With nothing configured and nothing in the comment or descriptions,
      the panel shows the coordinates, "Por confirmar", the default header,
      no footer, and the magnitude marker. */
  lemma UnconfiguredPanel(ev: EventTexts)
    ensures var r := BuildSeismicTextInfo(ev, [], [], map[]);
      r.locationText == CoordinatesText(ev) && r.provinceText == "Por confirmar"
      && r.headerTitle == "INFORMATIVO SISMO" && r.footerText == "" && r.hashtagsText == ""
      && r.showMagnitudeMarker && r.headerIconText.None? && r.statusText == ev.status
      && r.depthText == ev.depth + DepthSuffix
  {
  }

  // ---------------------------------------------------------------------
  // Panel theme from configuration

  /** The keyword arguments `_build_panel_theme` collects for the fields
      `names`: every configured, non-empty value, parsed with `int()` for
      the integer field (and skipped when that fails) when the field's
      type is recognised as `int`, taken raw otherwise. */
  function ThemeKwargs(config: Section, names: seq<string>, intRecognised: bool): (kw: map<string, ThemeValue>)
    ensures WellTyped(kw)
    ensures forall k :: k in kw ==> k in names
  {
    if names == [] then map[]
    else AddThemeArg(ThemeKwargs(config, names[..|names| - 1], intRecognised), config, names[|names| - 1], intRecognised)
  }

  /** One round of the loop: the entry, if any, that field `name` adds. */
  function AddThemeArg(kw: map<string, ThemeValue>, config: Section, name: string, intRecognised: bool)
    : (r: map<string, ThemeValue>)
    requires WellTyped(kw)
    ensures WellTyped(r)
    ensures forall k :: k in r ==> k in kw || k == name
    ensures forall k :: k in kw && k != name ==> k in r && r[k] == kw[k]
  {
    match SafeGet(config, "text_panel_" + name, None)
    case None => kw
    case Some(raw) =>
      if intRecognised && IsIntField(name) then
        match Decimal.ParseInt(raw)
        case Some(n) => kw[name := Number(n)]
        case None => kw
      else kw[name := Text(raw)]
  }

  lemma ThemeKwargsSnoc(config: Section, names: seq<string>, i: nat, intRecognised: bool)
    requires i < |names|
    ensures ThemeKwargs(config, names[..i + 1], intRecognised)
         == AddThemeArg(ThemeKwargs(config, names[..i], intRecognised), config, names[i], intRecognised)
  {
    assert names[..i + 1][..i] == names[..i];
  }

  /** `_build_panel_theme`: a loop over the theme's fields that fills the
      keyword arguments, then the theme built from them. `intRecognised`
      says whether the test `field.type is int` can succeed. */
  method BuildPanelTheme(config: Section, intRecognised: bool) returns (theme: PanelTheme)
    ensures theme == ThemeFrom(ThemeKwargs(config, ThemeFieldNames, intRecognised))
  {
    var names := ThemeFieldNames;
    var kwargs: map<string, ThemeValue> := map[];
    var i := 0;
    while i < |names|
      invariant 0 <= i <= |names|
      invariant kwargs == ThemeKwargs(config, names[..i], intRecognised)
    {
      var name := names[i];
      ThemeKwargsSnoc(config, names, i, intRecognised);
      var raw := SafeGet(config, "text_panel_" + name, None);
      i := i + 1;
      if raw.None? {
        continue;
      }
      if intRecognised && IsIntField(name) {
        var parsed := Decimal.ParseInt(raw.value);
        if parsed.None? {
          continue;
        }
        kwargs := kwargs[name := Number(parsed.value)];
      } else {
        kwargs := kwargs[name := Text(raw.value)];
      }
    }
    assert names[..i] == names;
    if |kwargs| > 0 {
      theme := ThemeFrom(kwargs);
    } else {
      assert kwargs == map[];
      ThemeFromNothing();
      theme := DefaultTheme;
    }
  }

  /** A configured text field overrides its default whatever the type test
      does; an unconfigured field keeps it. */
  lemma ThemeTextOverride(config: Section, intRecognised: bool)
    ensures var t := ThemeFrom(ThemeKwargs(config, ThemeFieldNames, intRecognised));
      var key := "text_panel_map_style";
      (key in config && config[key] != "" ==> t.mapStyle == config[key])
      && (!(key in config && config[key] != "") ==> t.mapStyle == "light")
  {
    var names := ThemeFieldNames;
    var key := "text_panel_map_style";
    var kw := ThemeKwargs(config, names, intRecognised);
    var k10 := ThemeKwargs(config, names[..10], intRecognised);
    assert names[9] == "map_style" && names[..10][..9] == names[..9];
    assert "text_panel_" + names[9] == key;
    KwargsAfter(config, names, 10, intRecognised, "map_style");
    if key in config && config[key] != "" {
      assert k10["map_style"] == Text(config[key]);
    } else {
      MapStyleAbsentBefore(config, names, intRecognised);
      assert "map_style" !in k10;
    }
  }

  lemma MapStyleAbsentBefore(config: Section, names: seq<string>, intRecognised: bool)
    requires names == ThemeFieldNames
    ensures "map_style" !in ThemeKwargs(config, names[..9], intRecognised)
  {
    var k := ThemeKwargs(config, names[..9], intRecognised);
    assert forall j :: 0 <= j < 9 ==> names[..9][j] != "map_style";
  }

  /** The theme's field names are all different. */
  lemma ThemeFieldNamesDistinct()
    ensures forall a, b :: 0 <= a < b < |ThemeFieldNames| ==> ThemeFieldNames[a] != ThemeFieldNames[b]
  {
  }

  /** Every text field of the theme: it gets a keyword argument exactly when
      it is configured with a non-empty value, and that argument is the raw
      text, whether or not the type test works. */
  lemma ThemeTextFields(config: Section, intRecognised: bool, j: nat)
    requires j < |ThemeFieldNames| && !IsIntField(ThemeFieldNames[j])
    ensures var name := ThemeFieldNames[j];
      var kw := ThemeKwargs(config, ThemeFieldNames, intRecognised);
      var raw := SafeGet(config, "text_panel_" + name, None);
      (name in kw <==> raw.Some?) && (raw.Some? ==> kw[name] == Text(raw.value))
  {
    var names := ThemeFieldNames;
    var name := names[j];
    ThemeFieldNamesDistinct();
    KwargsAfter(config, names, j + 1, intRecognised, name);
    ThemeKwargsSnoc(config, names, j, intRecognised);
    var before := ThemeKwargs(config, names[..j], intRecognised);
    assert forall a :: 0 <= a < j ==> names[..j][a] != name;
    assert name !in before;
  }

  /** Fields after position `n` never touch an earlier field's entry. */
  lemma {:induction false} KwargsAfter(config: Section, names: seq<string>, n: nat, intRecognised: bool, name: string)
    requires 0 < n <= |names| && names[n - 1] == name
    requires forall j :: n <= j < |names| ==> names[j] != name
    ensures var full := ThemeKwargs(config, names, intRecognised);
      var part := ThemeKwargs(config, names[..n], intRecognised);
      (name in full <==> name in part) && (name in full ==> full[name] == part[name])
  {
    if n < |names| {
      assert names[..|names| - 1][..n] == names[..n];
      KwargsAfter(config, names[..|names| - 1], n, intRecognised, name);
    } else {
      assert names[..n] == names;
    }
  }

  /** As written, the type test never recognises the integer field (the
      module declares postponed annotations, so a field's type is the text
      "int"): a configured scale is passed on as raw text, even one that is
      not a number at all. */
  lemma ExportScaleAsWritten(config: Section)
    requires "text_panel_export_scale" in config && config["text_panel_export_scale"] != ""
    ensures ThemeFrom(ThemeKwargs(config, ThemeFieldNames, false)).exportScale
         == Text(config["text_panel_export_scale"])
  {
    ExportScaleEntry(config, false);
  }

  /** With the type test working, the scale is always a number: the parsed
      value, or the default 2 when the text does not parse. */
  lemma ExportScaleParsed(config: Section)
    ensures var key := "text_panel_export_scale";
      var t := ThemeFrom(ThemeKwargs(config, ThemeFieldNames, true));
      t.exportScale.Number?
      && (key in config && config[key] != "" && Decimal.ParseInt(config[key]).Some?
          ==> t.exportScale == Number(Decimal.ParseInt(config[key]).value))
      && (!(key in config && config[key] != "") || Decimal.ParseInt(config[key]).None?
          ==> t.exportScale == Number(2))
  {
    ExportScaleEntry(config, true);
  }

  lemma ExportScaleEntry(config: Section, intRecognised: bool)
    ensures var key := "text_panel_export_scale";
      var kw := ThemeKwargs(config, ThemeFieldNames, intRecognised);
      var raw := SafeGet(config, key, None);
      ("export_scale" in kw <==> raw.Some? && (intRecognised ==> Decimal.ParseInt(raw.value).Some?))
      && ("export_scale" in kw ==>
            kw["export_scale"] == (if intRecognised then Number(Decimal.ParseInt(raw.value).value) else Text(raw.value)))
  {
    var names := ThemeFieldNames;
    assert names[11] == "export_scale";
    assert "text_panel_" + names[11] == "text_panel_export_scale";
    assert names[..12][..11] == names[..11];
    KwargsAfter(config, names, 12, intRecognised, "export_scale");
    assert forall j :: 0 <= j < 11 ==> names[..11][j] != "export_scale";
  }

  // ---------------------------------------------------------------------
  // Environment expansion of the JSON configuration

  datatype Json =
    | JString(s: string)
    | JObject(members: seq<(string, Json)>)
    | JArray(items: seq<Json>)
    | JNumber(n: real)
    | JBool(b: bool)
    | JNull

  /** `expand_env`: expands every string value, leaves keys and
      non-string scalars alone. */
  function ExpandEnv(v: Json, expand: string -> string): (r: Json)
  {
    match v
    case JString(s) => JString(expand(s))
    case JObject(members) =>
      JObject(seq(|members|, i requires 0 <= i < |members| => (members[i].0, ExpandEnv(members[i].1, expand))))
    case JArray(items) => JArray(seq(|items|, i requires 0 <= i < |items| => ExpandEnv(items[i], expand)))
    case _ => v
  }

  /** Two documents of the same shape: same kinds, keys, lengths and
      non-string scalars; only string values may differ. */
  predicate SameShape(a: Json, b: Json)
  {
    match a
    case JString(_) => b.JString?
    case JObject(ms) =>
      b.JObject? && |ms| == |b.members|
      && forall i :: 0 <= i < |ms| ==> ms[i].0 == b.members[i].0 && SameShape(ms[i].1, b.members[i].1)
    case JArray(xs) =>
      b.JArray? && |xs| == |b.items| && forall i :: 0 <= i < |xs| ==> SameShape(xs[i], b.items[i])
    case _ => a == b
  }

  /** Expansion keeps the document's shape. */
  lemma {:induction false} ExpandEnvKeepsShape(v: Json, expand: string -> string)
    ensures SameShape(v, ExpandEnv(v, expand))
  {
    match v
    case JString(_) =>
    case JObject(ms) =>
      forall i | 0 <= i < |ms| ensures SameShape(ms[i].1, ExpandEnv(v, expand).members[i].1) {
        ExpandEnvKeepsShape(ms[i].1, expand);
      }
    case JArray(xs) =>
      forall i | 0 <= i < |xs| ensures SameShape(xs[i], ExpandEnv(v, expand).items[i]) {
        ExpandEnvKeepsShape(xs[i], expand);
      }
    case _ =>
  }

  /** With no variable to expand, the document comes back unchanged. */
  lemma {:induction false} ExpandEnvIdentity(v: Json, expand: string -> string)
    requires forall s :: expand(s) == s
    ensures ExpandEnv(v, expand) == v
  {
    match v
    case JString(_) =>
    case JObject(ms) =>
      forall i | 0 <= i < |ms| ensures ExpandEnv(ms[i].1, expand) == ms[i].1 {
        ExpandEnvIdentity(ms[i].1, expand);
      }
      assert ExpandEnv(v, expand).members == ms;
    case JArray(xs) =>
      forall i | 0 <= i < |xs| ensures ExpandEnv(xs[i], expand) == xs[i] {
        ExpandEnvIdentity(xs[i], expand);
      }
      assert ExpandEnv(v, expand).items == xs;
    case _ =>
  }

  // ---------------------------------------------------------------------
  // The frame loop

  /** The same chain of guards as the plain runner, closed by `else`. */
  function StyledDispatch(t: int, c: Timing): Phase
  {
    var p, l, w := c.pointFrames, c.lineGrowthFrames, c.waveFrames;
    if t <= p + 1 then Point
    else if p - 1 <= t <= p + l then LineGrowth
    else if p + l <= t < p + l + w then WaveGrow
    else if p + l + w <= t <= p + l + w * 2 then WaveShrink
    else if p + l + w * 2 <= t <= p + l * 2 + w * 2 then LineShrink
    else Circles
  }

  /** The closing `else` changes nothing: both runners give every frame
      the same phase, for any constants. */
  lemma StyledDispatchAgrees(t: int, c: Timing)
    ensures StyledDispatch(t, c) == PhaseOf(t, c)
  {
  }

  /** `os.path.join(frame_directory, f"frame_{t:03}.png")`. */
  function FramePath(directory: string, t: nat): string
  {
    PathJoin(directory, "frame_" + Decimal.Pad3(t) + ".png")
  }

  /** Distinct frames get distinct paths in the same directory. */
  lemma FramePathInjective(directory: string, a: nat, b: nat)
    requires FramePath(directory, a) == FramePath(directory, b)
    ensures a == b
  {
    PathJoinCancel(directory, "frame_", Decimal.Pad3(a), Decimal.Pad3(b), ".png");
    Decimal.Pad3Injective(a, b);
  }

  /** Up to frame 999 the paths sort in frame order. */
  lemma FramePathsSortInOrder(directory: string, a: nat, b: nat)
    requires a < b < 1000
    ensures LexLess(FramePath(directory, a), FramePath(directory, b))
  {
    Decimal.Pad3Ordered(a, b);
    Decimal.Pad3ThreeDigits(a);
    Decimal.Pad3ThreeDigits(b);
    PathJoinOrdered(directory, "frame_", Decimal.Pad3(a), Decimal.Pad3(b), ".png");
  }

  /** What one saved frame consists of. */
  datatype SavedFrame = SavedFrame(
    path: string,
    traces: seq<Trace>,
    shapes: seq<Shape>,
    annotations: seq<Annotation>,
    images: seq<Image>,
    zoom: real,
    exportScale: ThemeValue)

  /** Frame `t` of the styled runner: the phase's traces (plus the
      magnitude marker when shown), the panel and the logos. */
  function StyledFrame(t: nat, framesNumber: int, c: Timing, sc: Scene, directory: string, eventAnnotation: string,
                       info: SeismicTextInfo, theme: Option<PanelTheme>, logos: Option<seq<Image>>): SavedFrame
    requires Usable(c) && |sc.lonTotal| == c.maxLen && framesNumber > 0
  {
    SavedFrame(
      FramePath(directory, t),
      FrameData(t, c, sc) + (if info.showMagnitudeMarker then [MagnitudeMarker(sc.lon0, sc.lat0, info)] else []),
      PanelShapes(info, EffectiveTheme(theme)),
      EventBox(eventAnnotation) + PanelAnnotations(info),
      LogoImages(logos),
      Zoom(t, framesNumber),
      EffectiveTheme(theme).exportScale)
  }

  /** The traces of frame `t`, chosen by the styled runner's dispatch. */
  method StyledFrameData(t: int, c: Timing, sc: Scene) returns (frameData: seq<Trace>)
    requires Usable(c) && |sc.lonTotal| == c.maxLen
    ensures frameData == FrameData(t, c, sc)
  {
    StyledDispatchAgrees(t, c);
    match StyledDispatch(t, c) {
      case Point =>
        frameData := CreateInitialPointFrame(sc.lon0, sc.lat0, sc.markers);
      case LineGrowth =>
        frameData := CreateLineGrowthFrame(t, c.pointFrames, c.lineGrowthFrames, c.maxLen, sc.lonTotal, sc.lat0, sc.markers);
      case WaveGrow =>
        frameData := CreateSineWaveFrame(t, c.pointFrames, c.lineGrowthFrames, c.waveFrames, sc.waveform,
                                         sc.verticalScale, sc.lonTotal, sc.lat0, sc.markers, true);
      case WaveShrink =>
        frameData := CreateSineWaveFrame(t, c.pointFrames, c.lineGrowthFrames, c.waveFrames, sc.waveform,
                                         sc.verticalScale, sc.lonTotal, sc.lat0, sc.markers, false);
      case LineShrink =>
        frameData := LineShrinkFrame(t, c, sc);
      case Circles =>
        frameData := CreateCircleFrames(t, c.waveGrow, c.waveShrink, sc.lat0, sc.lon0, sc.circleColors, sc.stations,
                                        sc.markers, sc.textMagnitude, sc.sinAt, sc.cosAt);
    }
  }

  /** One iteration of the frame loop: draw, dress with the panel, save. */
  method SaveStyledFrame(t: nat, framesNumber: int, c: Timing, sc: Scene, directory: string, eventAnnotation: string,
                         info: SeismicTextInfo, theme: Option<PanelTheme>, logos: Option<seq<Image>>)
    returns (saved: SavedFrame)
    requires Usable(c) && |sc.lonTotal| == c.maxLen && framesNumber > 0
    ensures saved == StyledFrame(t, framesNumber, c, sc, directory, eventAnnotation, info, theme, logos)
  {
    var frameData := StyledFrameData(t, c, sc);
    var frameName := FramePath(directory, t);
    var fig := new Figure(frameData);
    var zoomLevel := Zoom(t, framesNumber);
    var scale := SaveFrameWithTextPanel(fig, sc.lat0, sc.lon0, eventAnnotation, zoomLevel, info, theme, logos);
    saved := SavedFrame(frameName, fig.traces, fig.shapes, fig.annotations, fig.images, fig.zoom, scale);
  }

  /** The frame loop of the styled runner. The line-shrink phase uses the
      scene's line colour, which this runner sets to the wave colour. */
  method RenderStyledFrames(framesNumber: int, c: Timing, sc: Scene, directory: string, eventAnnotation: string,
                            info: SeismicTextInfo, theme: Option<PanelTheme>, logos: Option<seq<Image>>)
    returns (saved: seq<SavedFrame>)
    requires Usable(c) && |sc.lonTotal| == c.maxLen
    ensures |saved| == (if framesNumber > 0 then framesNumber else 0)
    ensures forall i :: 0 <= i < |saved| ==>
      saved[i] == StyledFrame(i + 1, framesNumber, c, sc, directory, eventAnnotation, info, theme, logos)
  {
    saved := [];
    var t := 1;
    while t <= framesNumber
      invariant 1 <= t <= (if framesNumber > 0 then framesNumber + 1 else 1)
      invariant |saved| == t - 1
      invariant forall i :: 0 <= i < |saved| ==>
        saved[i] == StyledFrame(i + 1, framesNumber, c, sc, directory, eventAnnotation, info, theme, logos)
    {
      var frame := SaveStyledFrame(t, framesNumber, c, sc, directory, eventAnnotation, info, theme, logos);
      ghost var before := saved;
      saved := saved + [frame];
      assert forall i :: 0 <= i < |before| ==> saved[i] == before[i];
      t := t + 1;
    }
  }
}
