/** The declarative paints an application assigns to the effect or to an element. */
module Xaml {
  import opened Wrappers
  import opened Colors
  import opened Geometry
  import Composition

  datatype GradientStop = GradientStop(offset: real, color: Color)

  /** The declarative enumerations; `OtherMapping` and `OtherSpread` stand for values outside
      the named members, which the translation's fall-through arms receive. */
  datatype BrushMappingMode = RelativeToBoundingBox | Absolute | OtherMapping(raw: int)
  datatype GradientSpreadMethod = Pad | Reflect | Repeat | OtherSpread(raw: int)

  datatype Paint =
    | SolidColorBrush(color: Color)
    | LinearGradientBrush(stops: seq<GradientStop>, mappingMode: BrushMappingMode, spreadMethod: GradientSpreadMethod,
                          startPoint: Vector2, endPoint: Vector2)
    | RadialGradientBrush(stops: seq<GradientStop>, mappingMode: BrushMappingMode, spreadMethod: GradientSpreadMethod,
                          center: Vector2, radiusX: real, radiusY: real, gradientOrigin: Vector2,
                          interpolationSpace: Composition.ColorSpace)
    | OtherBrush  // image, acrylic and every other brush kind

  /** A brush object: `id` stands for its reference identity, which the setters compare. */
  datatype Brush = Brush(id: nat, paint: Paint)

  /** Reference equality of two nullable brush references: both null, or the same object. */
  predicate SameReference(a: Option<Brush>, b: Option<Brush>) {
    if a.None? || b.None? then a.None? && b.None? else a.value.id == b.value.id
  }
}
