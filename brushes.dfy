/** The band brush builders: the 4-stop band synthesised from one colour, and the translation
    of a declarative paint into a compositor paint. */
module Brushes {
  import opened Wrappers
  import opened Colors
  import opened Geometry
  import Xaml
  import C = Composition

  /** The offsets of the synthesised band, in order. */
  const BandOffsets: seq<real> := [0.0, 0.25, 0.35, 0.5]

  /** The light band for colour c: transparent, c, c, transparent, as a default linear gradient. */
  function GetBrushForColor(c: Color): (b: C.Brush)
    ensures b.LinearGradientBrush?
    ensures b.mappingMode == C.DefaultMappingMode && b.extendMode == C.DefaultExtendMode
    ensures b.startPoint == C.DefaultStartPoint && b.endPoint == C.DefaultEndPoint
    ensures |b.stops| == 4
    ensures forall i :: 0 <= i < 4 ==> b.stops[i].offset == BandOffsets[i]
    ensures forall i, j :: 0 <= i < j < 4 ==> b.stops[i].offset < b.stops[j].offset
    ensures forall i :: 0 <= i < 4 ==> SameRgb(b.stops[i].color, c)
    ensures b.stops[1].color == c && b.stops[2].color == c
    ensures b.stops[0].color.a == 0 && b.stops[3].color.a == 0
  {
    var clear := Transparent(c);
    C.LinearGradientBrush(
      [C.ColorStop(0.0, clear), C.ColorStop(0.25, c), C.ColorStop(0.35, c), C.ColorStop(0.5, clear)],
      C.DefaultMappingMode, C.DefaultExtendMode, C.DefaultStartPoint, C.DefaultEndPoint)
  }

  /** The mapping-mode switch; an unnamed value keeps the new brush's current mode. */
  function MappingModeFor(m: Xaml.BrushMappingMode, current: C.MappingMode): C.MappingMode {
    match m
    case RelativeToBoundingBox => C.Relative
    case Absolute => C.Absolute
    case OtherMapping(_) => current
  }

  /** The spread switch; Pad and unnamed values keep the new brush's current extend mode. */
  function ExtendModeFor(s: Xaml.GradientSpreadMethod, current: C.ExtendMode): C.ExtendMode {
    match s
    case Reflect => C.Mirror
    case Repeat => C.Wrap
    case Pad => current
    case OtherSpread(_) => current
  }

  function ToColorStop(s: Xaml.GradientStop): C.ColorStop {
    C.ColorStop(s.offset, s.color)
  }

  /** The stop list a translated gradient receives, one stop per source stop. */
  function TranslateStops(stops: seq<Xaml.GradientStop>): seq<C.ColorStop> {
    if stops == [] then [] else [ToColorStop(stops[0])] + TranslateStops(stops[1..])
  }

  lemma {:induction false} TranslateStopsAppend(stops: seq<Xaml.GradientStop>, s: Xaml.GradientStop)
    ensures TranslateStops(stops + [s]) == TranslateStops(stops) + [ToColorStop(s)]
  {
    if stops == [] {
      assert stops + [s] == [s];
    } else {
      assert (stops + [s])[1..] == stops[1..] + [s];
      TranslateStopsAppend(stops[1..], s);
    }
  }

  /** Translation keeps every stop, in source order, with its offset and colour. */
  lemma {:induction false} TranslateStopsInOrder(stops: seq<Xaml.GradientStop>)
    ensures |TranslateStops(stops)| == |stops|
    ensures forall i :: 0 <= i < |stops| ==>
      TranslateStops(stops)[i].offset == stops[i].offset && TranslateStops(stops)[i].color == stops[i].color
  {
    if stops != [] {
      TranslateStopsInOrder(stops[1..]);
      var r := TranslateStops(stops);
      forall i | 0 <= i < |stops|
        ensures r[i].offset == stops[i].offset && r[i].color == stops[i].color
      {
        if i > 0 {
          assert r[i] == TranslateStops(stops[1..])[i - 1];
        }
      }
    }
  }

  /** The compositor paint for a declarative paint, or None for an unsupported kind. */
  function Translate(p: Xaml.Paint): Option<C.Brush> {
    match p
    case SolidColorBrush(c) => Some(C.ColorBrush(c))
    case LinearGradientBrush(stops, mapping, spread, _, _) =>
      Some(C.LinearGradientBrush(TranslateStops(stops), MappingModeFor(mapping, C.DefaultMappingMode),
                                 ExtendModeFor(spread, C.DefaultExtendMode), C.DefaultStartPoint, C.DefaultEndPoint))
    case RadialGradientBrush(stops, mapping, spread, center, rx, ry, origin, space) =>
      Some(C.RadialGradientBrush(TranslateStops(stops), MappingModeFor(mapping, C.DefaultMappingMode),
                                 ExtendModeFor(spread, C.DefaultExtendMode), center, Vector2(rx, ry), origin, space))
    case OtherBrush => None
  }

  /** What translation promises, kind by kind. */
  lemma TranslateMeaning(p: Xaml.Paint)
    ensures p.SolidColorBrush? ==> Translate(p) == Some(C.ColorBrush(p.color))
    ensures p.OtherBrush? <==> Translate(p).None?
    ensures p.LinearGradientBrush? ==> Translate(p).Some? && Translate(p).value.LinearGradientBrush?
    ensures p.RadialGradientBrush? ==>
      && Translate(p).Some? && Translate(p).value.RadialGradientBrush?
      && Translate(p).value.ellipseCenter == p.center
      && Translate(p).value.ellipseRadius == Vector2(p.radiusX, p.radiusY)
      && Translate(p).value.gradientOriginOffset == p.gradientOrigin
      && Translate(p).value.interpolationSpace == p.interpolationSpace
    ensures (p.LinearGradientBrush? || p.RadialGradientBrush?) ==>
      var b := Translate(p).value;
      && (p.mappingMode == Xaml.RelativeToBoundingBox ==> b.mappingMode == C.Relative)
      && (p.mappingMode == Xaml.Absolute ==> b.mappingMode == C.Absolute)
      && (p.mappingMode.OtherMapping? ==> b.mappingMode == C.DefaultMappingMode)
      && (p.spreadMethod == Xaml.Reflect ==> b.extendMode == C.Mirror)
      && (p.spreadMethod == Xaml.Repeat ==> b.extendMode == C.Wrap)
      && ((p.spreadMethod == Xaml.Pad || p.spreadMethod.OtherSpread?) ==> b.extendMode == C.DefaultExtendMode)
      && |b.stops| == |p.stops|
      && (forall i :: 0 <= i < |p.stops| ==> b.stops[i].offset == p.stops[i].offset && b.stops[i].color == p.stops[i].color)
  {
    if p.LinearGradientBrush? || p.RadialGradientBrush? {
      TranslateStopsInOrder(p.stops);
    }
  }

  /** A linear gradient's start and end points are not carried over: the result always runs
      along the compositor's default axis. */
  lemma LinearEndpointsIgnored(stops: seq<Xaml.GradientStop>, m: Xaml.BrushMappingMode, s: Xaml.GradientSpreadMethod,
                               start1: Vector2, end1: Vector2, start2: Vector2, end2: Vector2)
    ensures Translate(Xaml.LinearGradientBrush(stops, m, s, start1, end1))
         == Translate(Xaml.LinearGradientBrush(stops, m, s, start2, end2))
    ensures Translate(Xaml.LinearGradientBrush(stops, m, s, start1, end1)).value.startPoint == C.DefaultStartPoint
    ensures Translate(Xaml.LinearGradientBrush(stops, m, s, start1, end1)).value.endPoint == C.DefaultEndPoint
  {
  }

  /** Copies the declarative stops into a new compositor stop list, one at a time. */
  method CopyStops(stops: seq<Xaml.GradientStop>) returns (r: seq<C.ColorStop>)
    ensures r == TranslateStops(stops)
    ensures |r| == |stops|
    ensures forall i :: 0 <= i < |stops| ==> r[i].offset == stops[i].offset && r[i].color == stops[i].color
  {
    r := [];
    for i := 0 to |stops|
      invariant r == TranslateStops(stops[..i])
    {
      TranslateStopsAppend(stops[..i], stops[i]);
      assert stops[..i + 1] == stops[..i] + [stops[i]];
      r := r + [C.ColorStop(stops[i].offset, stops[i].color)];
    }
    assert stops[..|stops|] == stops;
    TranslateStopsInOrder(stops);
  }

  /** Builds the compositor paint for a declarative paint; an unsupported kind yields None. */
  method GetCompositionBrush(p: Xaml.Paint) returns (r: Option<C.Brush>)
    ensures r == Translate(p)
  {
    match p {
      case SolidColorBrush(c) =>
        r := Some(C.ColorBrush(c));
      case LinearGradientBrush(stops, mapping, spread, _, _) =>
        var copied := CopyStops(stops);
        r := Some(C.LinearGradientBrush(copied, MappingModeFor(mapping, C.DefaultMappingMode),
                                        ExtendModeFor(spread, C.DefaultExtendMode), C.DefaultStartPoint, C.DefaultEndPoint));
      case RadialGradientBrush(stops, mapping, spread, center, rx, ry, origin, space) =>
        var copied := CopyStops(stops);
        r := Some(C.RadialGradientBrush(copied, MappingModeFor(mapping, C.DefaultMappingMode),
                                        ExtendModeFor(spread, C.DefaultExtendMode), center, Vector2(rx, ry), origin, space));
      case OtherBrush =>
        r := None;
    }
  }
}
