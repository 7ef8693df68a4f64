/** The styled text panel (iganima/iganima_text_panel.py): the theme and
    the panel content records, and the assembly of a frame's figure, which
    the source does by appending to the figure's shape, annotation, image
    and trace lists. A figure is a record of those lists; colours, fonts and
    anchors of the drawn items are kept only where the layout depends on them. */
module TextPanel {
  import opened Wrappers
  import opened Strings
  import opened Geometry

  // ---------------------------------------------------------------------
  // Theme

  /** A theme field's value: the dataclass stores whatever it is given, so
      the integer field may end up holding a string. */
  datatype ThemeValue = Text(s: string) | Number(n: int)

  datatype PanelTheme = PanelTheme(
    panelBackground: string,
    headerBackground: string,
    blockPrimary: string,
    blockSecondary: string,
    blockBorder: string,
    accentColor: string,
    textPrimary: string,
    textSecondary: string,
    textMuted: string,
    mapStyle: string,
    fontFamily: string,
    exportScale: ThemeValue,
    headerTextColor: string,
    headerSubtextColor: string,
    footerTextColor: string,
    markerTextColor: string,
    markerBorderColor: string)

  const DefaultTheme: PanelTheme := PanelTheme(
    "#02142B", "#0B5ED7", "#1282F3", "#0F6BD7", "rgba(255, 255, 255, 0.22)", "#FFC857",
    "#FFFFFF", "#D7EBFF", "#9CC9FF", "light", "'Montserrat', 'Open Sans', 'Arial', sans-serif",
    Number(2), "#FFFFFF", "#D7EBFF", "#D7EBFF", "#041527", "#FFFFFF")

  /** The dataclass fields in declaration order. */
  const ThemeFieldNames: seq<string> := [
    "panel_background", "header_background", "block_primary", "block_secondary", "block_border",
    "accent_color", "text_primary", "text_secondary", "text_muted", "map_style", "font_family",
    "export_scale", "header_text_color", "header_subtext_color", "footer_text_color",
    "marker_text_color", "marker_border_color"]

  /** The one field declared `int`. */
  predicate IsIntField(name: string)
  {
    name == "export_scale"
  }

  /** Keyword arguments that only put numbers in the integer field. */
  predicate WellTyped(kwargs: map<string, ThemeValue>)
  {
    forall k :: k in kwargs && !IsIntField(k) ==> kwargs[k].Text?
  }

  function TextArg(kwargs: map<string, ThemeValue>, name: string, default: string): (r: string)
    requires WellTyped(kwargs)
    ensures name in kwargs && !IsIntField(name) ==> r == kwargs[name].s
    ensures name !in kwargs ==> r == default
  {
    if name in kwargs && kwargs[name].Text? then kwargs[name].s else default
  }

  /** `PanelTheme(**kwargs)`: each given field overrides its default. */
  function ThemeFrom(kwargs: map<string, ThemeValue>): (t: PanelTheme)
    requires WellTyped(kwargs)
    ensures t.exportScale == (if "export_scale" in kwargs then kwargs["export_scale"] else Number(2))
    ensures t.panelBackground == TextArg(kwargs, "panel_background", DefaultTheme.panelBackground)
    ensures t.mapStyle == TextArg(kwargs, "map_style", DefaultTheme.mapStyle)
  {
    var d := DefaultTheme;
    PanelTheme(
      TextArg(kwargs, "panel_background", d.panelBackground),
      TextArg(kwargs, "header_background", d.headerBackground),
      TextArg(kwargs, "block_primary", d.blockPrimary),
      TextArg(kwargs, "block_secondary", d.blockSecondary),
      TextArg(kwargs, "block_border", d.blockBorder),
      TextArg(kwargs, "accent_color", d.accentColor),
      TextArg(kwargs, "text_primary", d.textPrimary),
      TextArg(kwargs, "text_secondary", d.textSecondary),
      TextArg(kwargs, "text_muted", d.textMuted),
      TextArg(kwargs, "map_style", d.mapStyle),
      TextArg(kwargs, "font_family", d.fontFamily),
      if "export_scale" in kwargs then kwargs["export_scale"] else d.exportScale,
      TextArg(kwargs, "header_text_color", d.headerTextColor),
      TextArg(kwargs, "header_subtext_color", d.headerSubtextColor),
      TextArg(kwargs, "footer_text_color", d.footerTextColor),
      TextArg(kwargs, "marker_text_color", d.markerTextColor),
      TextArg(kwargs, "marker_border_color", d.markerBorderColor))
  }

  /** No keyword arguments give the default theme. */
  lemma ThemeFromNothing()
    ensures ThemeFrom(map[]) == DefaultTheme
  {
  }

  // ---------------------------------------------------------------------
  // Panel content

  datatype SeismicTextInfo = SeismicTextInfo(
    magnitudeValue: string,
    depthText: string,
    locationText: string,
    provinceText: string,
    statusText: string,
    dateText: string,
    magnitudeTitle: string,
    magnitudeSubtitle: string,
    depthTitle: string,
    depthSubtitle: string,
    locationTitle: string,
    locationSubtitle: string,
    provinceTitle: string,
    provinceSubtitle: string,
    statusTitle: string,
    dateTitle: string,
    headerTitle: string,
    headerSubtitle: string,
    footerText: string,
    hashtagsText: string,
    showMagnitudeMarker: bool,
    headerIconText: Option<string>,
    headerIconBackground: string,
    magnitudeMarkerColor: string)

  const DepthSuffix: string := " km de profundidad"

  /** `SeismicTextInfo.from_event_dict`: `magnitude` and `depth` are the
      event's values as Python prints them, `timeLocal` the optional local
      time. Every field not passed keeps its dataclass default. */
  function FromEventDict(magnitude: string, depth: string, timeLocal: Option<string>,
                         distanceText: string, provinceText: string, statusText: string,
                         hashtagsText: string, headerTitle: string, headerSubtitle: string): (r: SeismicTextInfo)
    ensures r.magnitudeValue == magnitude && r.locationText == distanceText && r.provinceText == provinceText
    ensures r.depthText == depth + DepthSuffix
    ensures r.dateText == (if timeLocal.Some? then timeLocal.value else "")
    ensures r.showMagnitudeMarker && r.headerIconText.None? && r.footerText == ""
  {
    SeismicTextInfo(
      magnitude, depth + DepthSuffix, distanceText, provinceText, statusText, timeLocal.GetOr(""),
      "Magnitud", "", "Profundidad", "", "Localizado", "", "Provincia", "", "IGepnEcuador", "Fecha",
      headerTitle, headerSubtitle, "", hashtagsText, true, None, "#12B4FF", "#FF5A5F")
  }

  // ---------------------------------------------------------------------
  // Figure items

  datatype ShapeKind = Rect | Circle

  datatype Shape = Shape(kind: ShapeKind, x0: real, x1: real, y0: real, y1: real, fill: string)

  datatype Annotation = Annotation(x: real, y: real, text: string)

  datatype Image = Image(source: string, x: real, y: real)

  const DefaultLogo: Image :=
    Image("https://raw.githubusercontent.com/awacero/grafana_plotly/main/images/logo_igepn.png", 0.02, 0.99)

  function Bold(s: string): string { "<b>" + s + "</b>" }

  /** The two rectangles of one block: the full-width card and its left
      half, both spanning the block's height. */
  function BlockShapes(y0: real, y1: real, primary: string, secondary: string, border: string): (r: seq<Shape>)
    ensures |r| == 2
    ensures forall i :: 0 <= i < 2 ==> r[i].kind == Rect && r[i].y0 == y0 && r[i].y1 == y1 && r[i].x0 == 0.03
    ensures r[0].x1 == 0.97 && r[1].x1 == 0.55 && r[0].fill == primary && r[1].fill == secondary
  {
    [Shape(Rect, 0.03, 0.97, y0, y1, primary), Shape(Rect, 0.03, 0.55, y0, y1, secondary)]
  }

  /** The left half of a block lies inside its card. */
  lemma BlockHalfInsideCard(y0: real, y1: real, p: string, s: string, b: string)
    ensures var r := BlockShapes(y0, y1, p, s, b);
      r[0].x0 <= r[1].x0 < r[1].x1 < r[0].x1 && r[0].y0 == r[1].y0 && r[1].y1 == r[0].y1
  {
  }

  /** Title, value and (only when there is one) subtitle of a block, at
      72 %, 50 % and 18 % of the block's height. */
  function BlockAnnotations(title: string, value: string, subtitle: string, y0: real, y1: real): (r: seq<Annotation>)
    ensures |r| == (if subtitle == "" then 2 else 3)
    ensures r[0].text == title && r[1].text == Bold(value)
    ensures subtitle != "" ==> r[2].text == subtitle
    ensures forall i :: 0 <= i < |r| ==> r[i].x == 0.08
  {
    var height := y1 - y0;
    var titleY := y1 - height * 0.28;
    var valueY := (y0 + y1) / 2.0;
    var subtitleY := y0 + height * 0.18;
    [Annotation(0.08, titleY, title), Annotation(0.08, valueY, Bold(value))]
      + (if subtitle != "" then [Annotation(0.08, subtitleY, subtitle)] else [])
  }

  /** Inside a block that has height, the subtitle sits above the bottom
      edge, the value above the subtitle, the title above the value, and the
      top edge above the title. */
  lemma BlockAnnotationsOrdered(title: string, value: string, subtitle: string, y0: real, y1: real)
    requires y0 < y1
    ensures var r := BlockAnnotations(title, value, subtitle, y0, y1);
      y0 < r[1].y < r[0].y < y1
      && (subtitle != "" ==> y0 < r[2].y < r[1].y)
  {
  }

  /** The four blocks: magnitude, depth, location, province, top to bottom. */
  datatype Block = Block(title: string, value: string, subtitle: string, y0: real, y1: real)

  function Blocks(info: SeismicTextInfo): (r: seq<Block>)
    ensures |r| == 4
  {
    [Block(info.magnitudeTitle, info.magnitudeValue, info.magnitudeSubtitle, 0.31, 0.37),
     Block(info.depthTitle, info.depthText, info.depthSubtitle, 0.23, 0.29),
     Block(info.locationTitle, info.locationText, info.locationSubtitle, 0.15, 0.21),
     Block(info.provinceTitle, info.provinceText, info.provinceSubtitle, 0.07, 0.13)]
  }

  /** The blocks sit one under the other without touching, below the header
      banner (which starts at 0.40) and above the status row (at 0.038). */
  lemma BlocksStackInsidePanel(info: SeismicTextInfo)
    ensures var b := Blocks(info);
      (forall i :: 0 <= i < 4 ==> 0.038 < b[i].y0 < b[i].y1 < 0.40)
      && (forall i, j :: 0 <= i < j < 4 ==> b[j].y1 < b[i].y0)
  {
  }

  /** The shapes the loop over blocks appends, block after block. */
  function AllBlockShapes(blocks: seq<Block>, theme: PanelTheme): (r: seq<Shape>)
    ensures |r| == 2 * |blocks|
  {
    if blocks == [] then []
    else
      var b := blocks[|blocks| - 1];
      AllBlockShapes(blocks[..|blocks| - 1], theme) + BlockShapes(b.y0, b.y1, theme.blockPrimary, theme.blockSecondary, theme.blockBorder)
  }

  function AllBlockAnnotations(blocks: seq<Block>): seq<Annotation>
  {
    if blocks == [] then []
    else
      var b := blocks[|blocks| - 1];
      AllBlockAnnotations(blocks[..|blocks| - 1]) + BlockAnnotations(b.title, b.value, b.subtitle, b.y0, b.y1)
  }

  lemma BlocksSnoc(blocks: seq<Block>, i: nat, theme: PanelTheme)
    requires i < |blocks|
    ensures var b := blocks[i];
      AllBlockShapes(blocks[..i + 1], theme)
        == AllBlockShapes(blocks[..i], theme) + BlockShapes(b.y0, b.y1, theme.blockPrimary, theme.blockSecondary, theme.blockBorder)
      && AllBlockAnnotations(blocks[..i + 1]) == AllBlockAnnotations(blocks[..i]) + BlockAnnotations(b.title, b.value, b.subtitle, b.y0, b.y1)
  {
    assert blocks[..i + 1][..i] == blocks[..i];
  }

  function Flag(b: bool): nat { if b then 1 else 0 }

  /** Each block contributes two annotations, three with a subtitle. */
  lemma {:induction false} AllBlockAnnotationsCount(blocks: seq<Block>)
    ensures |AllBlockAnnotations(blocks)| == 2 * |blocks| + SubtitleCount(blocks)
  {
    if blocks != [] {
      AllBlockAnnotationsCount(blocks[..|blocks| - 1]);
    }
  }

  function SubtitleCount(blocks: seq<Block>): nat
  {
    if blocks == [] then 0 else SubtitleCount(blocks[..|blocks| - 1]) + Flag(blocks[|blocks| - 1].subtitle != "")
  }

  /** `if text_info.header_icon_text:` */
  predicate HasIcon(info: SeismicTextInfo)
  {
    info.headerIconText.Some? && info.headerIconText.value != ""
  }

  /** The background, the header banner and the optional icon disc. */
  function HeaderShapes(info: SeismicTextInfo, theme: PanelTheme): (r: seq<Shape>)
    ensures |r| == 2 + Flag(HasIcon(info))
    ensures r[0] == Shape(Rect, 0.0, 1.0, 0.0, 0.48, theme.panelBackground)
  {
    [Shape(Rect, 0.0, 1.0, 0.0, 0.48, theme.panelBackground), Shape(Rect, 0.03, 0.97, 0.40, 0.46, theme.headerBackground)]
      + (if HasIcon(info) then [Shape(Circle, 0.05, 0.11, 0.41, 0.47, info.headerIconBackground)] else [])
  }

  /** The icon label, the title and the optional subtitle of the header. */
  function HeaderAnnotations(info: SeismicTextInfo): (r: seq<Annotation>)
    ensures |r| == Flag(HasIcon(info)) + 1 + Flag(info.headerSubtitle != "")
  {
    (if HasIcon(info) then [Annotation(0.08, 0.44, Bold(info.headerIconText.value))] else [])
      + [Annotation(0.5, 0.435, Bold(info.headerTitle))]
      + (if info.headerSubtitle != "" then [Annotation(0.5, 0.405, info.headerSubtitle)] else [])
  }

  const Bullet: string := " \U{2022} "

  /** The non-empty strings of `parts`, in order. */
  function NonEmpty(parts: seq<string>): (r: seq<string>)
    ensures forall i :: 0 <= i < |r| ==> r[i] != ""
  {
    if parts == [] then [] else (if parts[0] != "" then [parts[0]] else []) + NonEmpty(parts[1..])
  }

  /** `" • ".join(part for part in [footer, hashtags] if part)`: the
      separator appears only between two non-empty parts. */
  function FooterText(footer: string, hashtags: string): (r: string)
    ensures r == "" <==> footer == "" && hashtags == ""
    ensures footer != "" && hashtags != "" ==> r == footer + Bullet + hashtags
    ensures footer == "" ==> r == hashtags
    ensures hashtags == "" ==> r == footer
  {
    var parts := [footer, hashtags];
    assert parts[1..] == [hashtags] && [hashtags][1..] == [];
    assert NonEmpty([hashtags]) == (if hashtags != "" then [hashtags] else []);
    assert NonEmpty(parts) == (if footer != "" then [footer] else []) + NonEmpty([hashtags]);
    assert footer != "" && hashtags != "" ==> Join([footer, hashtags], Bullet) == footer + Bullet + hashtags by {
      assert [footer, hashtags][1..] == [hashtags];
    }
    Join(NonEmpty(parts), Bullet)
  }

  /** The status row, the date row and, when there is footer or hashtag
      text, the footer line. */
  function FooterAnnotations(info: SeismicTextInfo): (r: seq<Annotation>)
    ensures |r| == 2 + Flag(info.footerText != "" || info.hashtagsText != "")
    ensures r[0].text == Bold(info.statusTitle) + " " + info.statusText
    ensures r[1].text == "<b>" + info.dateTitle + ":</b> " + info.dateText
    ensures |r| == 3 ==> r[2].text == FooterText(info.footerText, info.hashtagsText) && r[2].text != ""
  {
    [Annotation(0.05, 0.038, Bold(info.statusTitle) + " " + info.statusText),
     Annotation(0.95, 0.038, "<b>" + info.dateTitle + ":</b> " + info.dateText)]
      + (if info.footerText != "" || info.hashtagsText != ""
         then [Annotation(0.5, 0.012, FooterText(info.footerText, info.hashtagsText))] else [])
  }

  /** Everything the text panel appends. */
  function PanelShapes(info: SeismicTextInfo, theme: PanelTheme): seq<Shape>
  {
    HeaderShapes(info, theme) + AllBlockShapes(Blocks(info), theme)
  }

  function PanelAnnotations(info: SeismicTextInfo): seq<Annotation>
  {
    HeaderAnnotations(info) + AllBlockAnnotations(Blocks(info)) + FooterAnnotations(info)
  }

  /** The panel adds 2 shapes, 1 more for the icon, and 2 per block; and
      header annotations (icon, title, subtitle), 2 or 3 per block, then the
      status, date and optional footer rows. */
  lemma PanelCounts(info: SeismicTextInfo, theme: PanelTheme)
    ensures |PanelShapes(info, theme)| == 2 + Flag(HasIcon(info)) + 8
    ensures |PanelAnnotations(info)|
         == Flag(HasIcon(info)) + 1 + Flag(info.headerSubtitle != "")
            + 8 + Flag(info.magnitudeSubtitle != "") + Flag(info.depthSubtitle != "")
            + Flag(info.locationSubtitle != "") + Flag(info.provinceSubtitle != "")
            + 2 + Flag(info.footerText != "" || info.hashtagsText != "")
  {
    var b := Blocks(info);
    AllBlockAnnotationsCount(b);
    assert b[..1][..0] == [];
    assert b[..2][..1] == b[..1];
    assert b[..3][..2] == b[..2];
    assert SubtitleCount(b[..1]) == Flag(info.magnitudeSubtitle != "");
    assert SubtitleCount(b[..2]) == SubtitleCount(b[..1]) + Flag(info.depthSubtitle != "");
    assert SubtitleCount(b[..3]) == SubtitleCount(b[..2]) + Flag(info.locationSubtitle != "");
    assert SubtitleCount(b) == SubtitleCount(b[..3]) + Flag(info.provinceSubtitle != "");
  }

  /** The magnitude disc drawn on the epicentre. */
  function MagnitudeMarker(lon: real, lat: real, info: SeismicTextInfo): (r: Trace)
    ensures r.lon == [lon] && r.lat == [lat] && r.text == [info.magnitudeValue]
    ensures r.color == info.magnitudeMarkerColor
  {
    Trace([lon], [lat], [info.magnitudeValue], MarkersText, info.magnitudeMarkerColor, [])
  }

  /** The logo images a frame gets on top of its own. */
  function LogoImages(logos: Option<seq<Image>>): (r: seq<Image>)
    ensures logos.None? ==> r == [DefaultLogo]
    ensures logos.Some? ==> r == logos.value
  {
    if logos.None? then [DefaultLogo] else logos.value
  }

  /** The corner box with the event summary, if there is one. */
  function EventBox(eventAnnotation: string): (r: seq<Annotation>)
    ensures |r| == (if eventAnnotation == "" then 0 else 1)
    ensures |r| == 1 ==> r[0].text == eventAnnotation
  {
    if eventAnnotation == "" then [] else [Annotation(0.98, 0.97, eventAnnotation)]
  }

  // ---------------------------------------------------------------------
  // The figure

  class Figure {
    var traces: seq<Trace>
    var shapes: seq<Shape>
    var annotations: seq<Annotation>
    var images: seq<Image>
    var center: (real, real)
    var zoom: real
    var mapStyle: string

    /** `go.Figure(data=frame_data)`: the traces, an empty layout. */
    constructor (data: seq<Trace>)
      ensures traces == data && shapes == [] && annotations == [] && images == []
    {
      traces := data;
      shapes := [];
      annotations := [];
      images := [];
      center := (0.0, 0.0);
      zoom := 0.0;
      mapStyle := "";
    }

    /** The map part of the layout: centre, zoom and style. */
    method PrepareMapLayout(eventLatitude: real, eventLongitude: real, zoomLevel: real, theme: PanelTheme)
      modifies this
      ensures center == (eventLatitude, eventLongitude) && zoom == zoomLevel && mapStyle == theme.mapStyle
      ensures traces == old(traces) && shapes == old(shapes) && annotations == old(annotations) && images == old(images)
    {
      center := (eventLatitude, eventLongitude);
      zoom := zoomLevel;
      mapStyle := theme.mapStyle;
    }

    /** `_add_logo_images`: existing images first, then the given logos or
        the default one. */
    method AddLogoImages(logos: Option<seq<Image>>)
      modifies this
      ensures images == old(images) + LogoImages(logos)
      ensures traces == old(traces) && shapes == old(shapes) && annotations == old(annotations)
      ensures center == old(center) && zoom == old(zoom) && mapStyle == old(mapStyle)
    {
      var current := images;
      var added: seq<Image>;
      if logos.None? {
        added := [DefaultLogo];
      } else {
        added := logos.value;
      }
      images := current + added;
    }

    /** `_apply_event_annotation`: nothing for an empty text, otherwise one
        box after the existing annotations. */
    method ApplyEventAnnotation(eventAnnotation: string)
      modifies this
      ensures annotations == old(annotations) + EventBox(eventAnnotation)
      ensures traces == old(traces) && shapes == old(shapes) && images == old(images)
      ensures center == old(center) && zoom == old(zoom) && mapStyle == old(mapStyle)
    {
      if eventAnnotation == "" {
        return;
      }
      var current := annotations;
      current := current + [Annotation(0.98, 0.97, eventAnnotation)];
      annotations := current;
    }

    /** `_add_magnitude_marker`: one more trace. */
    method AddMagnitudeMarker(eventLongitude: real, eventLatitude: real, info: SeismicTextInfo)
      modifies this
      ensures traces == old(traces) + [MagnitudeMarker(eventLongitude, eventLatitude, info)]
      ensures shapes == old(shapes) && annotations == old(annotations) && images == old(images)
      ensures center == old(center) && zoom == old(zoom) && mapStyle == old(mapStyle)
    {
      traces := traces + [MagnitudeMarker(eventLongitude, eventLatitude, info)];
    }

    /** `_apply_text_panel`: the header, the four blocks in a loop, and the
        status, date and footer rows, after the figure's own shapes and
        annotations. */
    method ApplyTextPanel(info: SeismicTextInfo, theme: PanelTheme)
      modifies this
      ensures shapes == old(shapes) + PanelShapes(info, theme)
      ensures annotations == old(annotations) + PanelAnnotations(info)
      ensures traces == old(traces) && images == old(images)
      ensures center == old(center) && zoom == old(zoom) && mapStyle == old(mapStyle)
    {
      var blockShapes, blockNotes := DrawBlocks(Blocks(info), theme);
      shapes := shapes + (HeaderShapes(info, theme) + blockShapes);
      annotations := annotations + (HeaderAnnotations(info) + blockNotes + FooterAnnotations(info));
    }
  }

  /** The loop over the four blocks: each adds its card and accent bar, and
      its title, value and optional subtitle. */
  method DrawBlocks(blocks: seq<Block>, theme: PanelTheme) returns (blockShapes: seq<Shape>, blockNotes: seq<Annotation>)
    ensures blockShapes == AllBlockShapes(blocks, theme) && blockNotes == AllBlockAnnotations(blocks)
  {
    blockShapes, blockNotes := [], [];
    var i := 0;
    while i < |blocks|
      invariant 0 <= i <= |blocks|
      invariant blockShapes == AllBlockShapes(blocks[..i], theme)
      invariant blockNotes == AllBlockAnnotations(blocks[..i])
    {
      var b := blocks[i];
      BlocksSnoc(blocks, i, theme);
      blockShapes := blockShapes + BlockShapes(b.y0, b.y1, theme.blockPrimary, theme.blockSecondary, theme.blockBorder);
      blockNotes := blockNotes + BlockAnnotations(b.title, b.value, b.subtitle, b.y0, b.y1);
      i := i + 1;
    }
    assert blocks[..i] == blocks;
  }

  /** `theme or PanelTheme()`: a theme object is always truthy, so only a
      missing theme is replaced. */
  function EffectiveTheme(theme: Option<PanelTheme>): (r: PanelTheme)
    ensures theme.Some? ==> r == theme.value
    ensures theme.None? ==> r == DefaultTheme
  {
    theme.GetOr(DefaultTheme)
  }

  /** `save_frame_with_text_panel` up to the image export: map layout, logos,
      event box, the magnitude marker exactly when the content asks for it,
      then the panel. Returns the scale the image is written with. */
  method SaveFrameWithTextPanel(fig: Figure, eventLatitude: real, eventLongitude: real, eventAnnotation: string,
                                zoomLevel: real, info: SeismicTextInfo, theme: Option<PanelTheme>,
                                logos: Option<seq<Image>>)
    returns (exportScale: ThemeValue)
    modifies fig
    ensures fig.traces == old(fig.traces)
      + (if info.showMagnitudeMarker then [MagnitudeMarker(eventLongitude, eventLatitude, info)] else [])
    ensures fig.images == old(fig.images) + LogoImages(logos)
    ensures fig.annotations == old(fig.annotations) + EventBox(eventAnnotation) + PanelAnnotations(info)
    ensures fig.shapes == old(fig.shapes) + PanelShapes(info, EffectiveTheme(theme))
    ensures fig.center == (eventLatitude, eventLongitude) && fig.zoom == zoomLevel
    ensures fig.mapStyle == EffectiveTheme(theme).mapStyle
    ensures exportScale == EffectiveTheme(theme).exportScale
  {
    var t := EffectiveTheme(theme);
    fig.PrepareMapLayout(eventLatitude, eventLongitude, zoomLevel, t);
    fig.AddLogoImages(logos);
    fig.ApplyEventAnnotation(eventAnnotation);
    if info.showMagnitudeMarker {
      fig.AddMagnitudeMarker(eventLongitude, eventLatitude, info);
    }
    fig.ApplyTextPanel(info, t);
    exportScale := t.exportScale;
  }
}
