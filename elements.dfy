/** The element the effect is attached to, classified once by kind, and the switches the
    controller makes on that kind. */
module Elements {
  import opened Wrappers
  import opened Colors
  import opened Geometry
  import Xaml
  import C = Composition

  /** A control and a grid carry corner radii; any other panel is `Panel(false, _)` and its
      radius is never read. */
  datatype ElementKind =
    | Control(cornerRadius: CornerRadius)
    | Shape
    | TextBlock
    | Panel(isGrid: bool, cornerRadius: CornerRadius)
    | Generic

  /** The base paint property whose changes the derived colour follows. */
  datatype BaseProperty = Background | Fill | Foreground

  function ColorSourceProperty(k: ElementKind): Option<BaseProperty> {
    match k
    case Control(_) => Some(Background)
    case Shape => Some(Fill)
    case TextBlock => Some(Foreground)
    case Panel(_, _) => None
    case Generic => None
  }

  /** The colour the derived band brightens: the element's base paint when that property
      exists and holds a solid colour brush, dark grey otherwise. `basePaint` is the current
      value of the element's base paint property. */
  function BaseColor(k: ElementKind, basePaint: Option<Xaml.Brush>): Color {
    if ColorSourceProperty(k).Some? && basePaint.Some? && basePaint.value.paint.SolidColorBrush?
    then basePaint.value.paint.color
    else DarkGray
  }

  /** The base colour is read from the same property the colour listener watches, and it is
      read only through a solid colour brush. */
  lemma BaseColorPick(k: ElementKind, basePaint: Option<Xaml.Brush>)
    ensures ColorSourceProperty(k).None? ==> BaseColor(k, basePaint) == DarkGray
    ensures (basePaint.None? || !basePaint.value.paint.SolidColorBrush?) ==> BaseColor(k, basePaint) == DarkGray
    ensures ColorSourceProperty(k).Some? && basePaint.Some? && basePaint.value.paint.SolidColorBrush? ==>
      BaseColor(k, basePaint) == basePaint.value.paint.color
  {
  }

  /** Controls are followed through their background, shapes through their fill, text through
      its foreground; panels and other elements have no base paint property. */
  lemma ColorSourceKinds(k: ElementKind)
    ensures ColorSourceProperty(k) == Some(Background) <==> k.Control?
    ensures ColorSourceProperty(k) == Some(Fill) <==> k.Shape?
    ensures ColorSourceProperty(k) == Some(Foreground) <==> k.TextBlock?
    ensures ColorSourceProperty(k).None? <==> k.Panel? || k.Generic?
  {
  }

  /** Whether the controller tries to clip the sprite at all: not for shapes and text, whose
      own alpha already bounds the visible region. */
  predicate ClipAttempted(k: ElementKind) {
    !k.Shape? && !k.TextBlock?
  }

  /** The corner-radius switch: a control's or a grid's radii, nothing for anything else. */
  function ClipRadius(k: ElementKind): Option<CornerRadius> {
    match k
    case Control(cr) => Some(cr)
    case Panel(isGrid, cr) => if isGrid then Some(cr) else None
    case _ => None
  }

  /** A sprite is clipped exactly for controls and grids. */
  lemma ClipApplicability(k: ElementKind)
    ensures ClipAttempted(k) && ClipRadius(k).Some? <==> k.Control? || (k.Panel? && k.isGrid)
    ensures k.Shape? || k.TextBlock? || k.Generic? ==> ClipRadius(k).None?
  {
  }

  /** The clip chosen for a sprite of size (w, h): the rounded rectangle when the element has
      corner radii, otherwise the sprite's clip is left as it was. */
  function ClipFor(k: ElementKind, w: real, h: real, current: Option<Figure>): (clip: Option<Figure>)
    ensures ClipRadius(k).None? ==> clip == current
    ensures ClipRadius(k).Some? ==> clip == Some(RoundedRectPath(w, h, ClipRadius(k).value))
  {
    match ClipRadius(k)
    case Some(cr) => Some(RoundedRectPath(w, h, cr))
    case None => current
  }

  /** The mask the mask brush receives for each kind; a panel's mask is a newly rendered
      surface of its current children at its current size. */
  function MaskFor(k: ElementKind, handle: nat, children: nat, size: Vector2): (m: C.MaskSource)
    ensures k.Shape? <==> m == C.ShapeAlphaMask
    ensures k.TextBlock? <==> m == C.TextAlphaMask
    ensures k.Panel? <==> m.PanelSurface?
    ensures k.Panel? ==> m.handle == handle && m.children == children && m.size == size
    ensures (k.Control? || k.Generic?) <==> m == C.NoMask
  {
    match k
    case Shape => C.ShapeAlphaMask
    case TextBlock => C.TextAlphaMask
    case Panel(_, _) => C.PanelSurface(handle, children, size)
    case _ => C.NoMask
  }
}
