/** The compositor objects the controller creates, as values. Objects whose identity matters
    (the sprite visual the overlay slot holds, the mask brush the sprite paints with, the
    animation, a panel's captured surface) carry a handle drawn from the controller's counter. */
module Composition {
  import opened Wrappers
  import opened Colors
  import opened Geometry

  datatype MappingMode = Absolute | Relative
  datatype ExtendMode = Clamp | Wrap | Mirror
  datatype ColorSpace = Auto | Hsl | Rgb | HslLinear | RgbLinear

  /** What a freshly created gradient brush holds before anything is assigned to it. */
  const DefaultMappingMode: MappingMode := Relative
  const DefaultExtendMode: ExtendMode := Clamp
  const DefaultStartPoint: Vector2 := Vector2(0.0, 0.0)
  const DefaultEndPoint: Vector2 := Vector2(1.0, 0.0)

  datatype ColorStop = ColorStop(offset: real, color: Color)

  /** A compositor paint. */
  datatype Brush =
    | ColorBrush(color: Color)
    | LinearGradientBrush(stops: seq<ColorStop>, mappingMode: MappingMode, extendMode: ExtendMode,
                          startPoint: Vector2, endPoint: Vector2)
    | RadialGradientBrush(stops: seq<ColorStop>, mappingMode: MappingMode, extendMode: ExtendMode,
                          ellipseCenter: Vector2, ellipseRadius: Vector2, gradientOriginOffset: Vector2,
                          interpolationSpace: ColorSpace)

  /** The alpha source of the mask brush: the shape's or the text's own alpha mask, a surface
      rendered from redirected copies of a panel's children (their number and the panel's size
      at capture time), or nothing for any other element. */
  datatype MaskSource =
    | NoMask
    | ShapeAlphaMask
    | TextAlphaMask
    | PanelSurface(handle: nat, children: nat, size: Vector2)

  /** The mask brush: alpha mask plus paint source. `sourceAnimating` says whether the current
      source's horizontal offset animation is running. */
  datatype MaskBrush = MaskBrush(handle: nat, mask: MaskSource, source: Option<Brush>, sourceAnimating: bool)

  /** The sprite visual painted with the mask brush (`brush` is that brush's handle). */
  datatype SpriteVisual = SpriteVisual(handle: nat, brush: nat, size: Vector2, clip: Option<Figure>)

  /** The scalar key-frame animation: duration in ticks, key frames by normalised progress. */
  datatype Animation = Animation(handle: nat, duration: int, keyFrames: map<real, real>, loopsForever: bool)
}
