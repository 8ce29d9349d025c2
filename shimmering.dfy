/** The effect controller as the object it is: a controller bound to one host element, whose
    event handlers and setters update its fields and the element's slots step by step. Every
    method is proved to perform exactly the transition of module Controller on the snapshot
    of both objects, and the public ones to keep its invariant. */
module Shimmering {
  import opened Wrappers
  import opened Colors
  import opened Geometry
  import Xaml
  import opened Composition
  import opened Brushes
  import opened Elements
  import opened Controller

  /** The host element, reduced to what the controller reads and writes: its kind, loaded
      state, render size, base paint and child count (set by the host), its overlay child
      visual slot, and its property-change registrations. */
  class Element {
    const kind: ElementKind
    var isLoaded: bool
    var width: real
    var height: real
    var basePaint: Option<Xaml.Brush>
    var children: nat
    var childVisual: Option<nat>
    var registrations: set<nat>
    var nextToken: nat

    constructor (kind: ElementKind, loaded: bool, width: real, height: real, basePaint: Option<Xaml.Brush>, children: nat)
      ensures this.kind == kind && isLoaded == loaded && this.width == width && this.height == height
      ensures this.basePaint == basePaint && this.children == children
      ensures childVisual.None? && registrations == {} && nextToken == 0
    {
      this.kind := kind;
      isLoaded, this.width, this.height, this.basePaint, this.children := loaded, width, height, basePaint, children;
      childVisual, registrations, nextToken := None, {}, 0;
    }

    /** Replaces the overlay child visual. */
    method SetChildVisual(v: Option<nat>)
      modifies this`childVisual
      ensures childVisual == v
    {
      childVisual := v;
    }

    /** Registers a base paint listener and hands back its new token. */
    method RegisterPropertyChangedCallback() returns (token: nat)
      modifies this`registrations, this`nextToken
      ensures token == old(nextToken) && nextToken == old(nextToken) + 1
      ensures registrations == old(registrations) + {token}
    {
      token := nextToken;
      registrations := registrations + {token};
      nextToken := nextToken + 1;
    }

    /** Unregisters the listener with this token; an unknown token changes nothing. */
    method UnregisterPropertyChangedCallback(token: nat)
      modifies this`registrations
      ensures registrations == old(registrations) - {token}
    {
      registrations := registrations - {token};
    }
  }

  class ShimmeringHelper {
    const element: Element
    /** The colour brightening the derived band uses; its arithmetic is not part of this model. */
    const brighten: Color -> Color

    var resourcesInitialized: bool
    /** Whether a compositor reference was obtained; it is never cleared. */
    var hasCompositor: bool
    var isActive: bool
    var color: Option<Color>
    var brush: Option<Xaml.Brush>
    var duration: int
    var colorListenerToken: Option<nat>
    var maskBrush: Option<MaskBrush>
    var maskVisual: Option<SpriteVisual>
    var animation: Option<Animation>
    var nextHandle: nat

    ghost function State(): Snapshot
      reads this, element
    {
      Snapshot(element.kind, element.isLoaded, element.width, element.height, element.basePaint, element.children,
               element.childVisual, element.registrations, element.nextToken,
               resourcesInitialized, hasCompositor, isActive, color, brush, duration, colorListenerToken,
               maskBrush, maskVisual, animation, nextHandle)
    }

    ghost predicate Valid()
      reads this, element
    {
      Controller.Valid(State())
    }

    /** Binds to the element and initializes at once if it is already loaded. */
    constructor (element: Element, brighten: Color -> Color)
      requires element.childVisual.None?
      requires forall t :: t in element.registrations ==> t < element.nextToken
      modifies element
      ensures this.element == element && this.brighten == brighten
      ensures Valid()
      ensures State() == Bind(element.kind, old(element.isLoaded), old(element.width), old(element.height),
                              old(element.basePaint), old(element.children), old(element.registrations),
                              old(element.nextToken), brighten)
    {
      this.element := element;
      this.brighten := brighten;
      resourcesInitialized, hasCompositor, isActive := false, false, false;
      color, brush, duration, colorListenerToken := None, None, DefaultDuration, None;
      maskBrush, maskVisual, animation, nextHandle := None, None, None, 0;
      new;
      if element.isLoaded {
        InitializeResources();
      }
    }

    /** Loaded handler. */
    method OnLoaded()
      requires Valid()
      modifies this, element
      ensures Valid() && State() == Init(old(State()), brighten)
    {
      InitializeResources();
    }

    /** Unloaded handler. */
    method OnUnloaded()
      requires Valid()
      modifies this, element
      ensures Valid() && State() == Dispose(old(State()))
    {
      DisposeResources();
    }

    method InitializeResources()
      requires Valid()
      modifies this, element
      ensures Valid() && State() == Init(old(State()), brighten)
    {
      if resourcesInitialized {
        return;
      }
      BuildResources();
      UpdateAnimationKeeps(State());
      UpdateAnimation();
      resourcesInitialized := true;
    }

    /** Acquires the compositor and creates the mask brush (resolving its source), the sprite
        and the animation, before anything is sized. */
    method BuildResources()
      requires Valid() && !resourcesInitialized
      modifies this, element
      ensures State() == Build(old(State()), brighten)
    {
      hasCompositor := true;
      UpdateMaskBrush();
      var _ := CheckMaskBrushSource();
      UpdateMaskVisual();
      CreateAnimation();
    }

    /** Creates the mask brush with the mask for the element's kind. */
    method UpdateMaskBrush()
      modifies this`maskBrush, this`nextHandle
      ensures State() == CreateMaskBrush(old(State()))
    {
      var h := nextHandle;
      maskBrush := Some(MaskBrush(h, MaskFor(element.kind, h + 1, element.children, Vector2(element.width, element.height)),
                                  None, false));
      nextHandle := h + 2;
    }

    /** Creates the sprite visual painted with the mask brush, with the corner-radius clip. */
    method UpdateMaskVisual()
      requires maskBrush.Some?
      modifies this`maskVisual, this`nextHandle
      ensures State() == CreateMaskVisual(old(State()))
    {
      var sprite := SpriteVisual(nextHandle, maskBrush.value.handle, Vector2(0.0, 0.0), None);
      nextHandle := nextHandle + 1;
      if ClipAttempted(element.kind) {
        sprite := HandleCornerRadiusClip(sprite);
      }
      maskVisual := Some(sprite);
    }

    /** Clips the sprite to the rounded rectangle of the element's current size when the element
        has corner radii; otherwise the sprite is returned as it was. */
    method HandleCornerRadiusClip(sprite: SpriteVisual) returns (r: SpriteVisual)
      ensures r == sprite.(clip := ClipFor(element.kind, element.width, element.height, sprite.clip))
    {
      var cr := ClipRadius(element.kind);
      if cr.None? {
        return sprite;
      }
      r := sprite.(clip := Some(RoundedRectPath(element.width, element.height, cr.value)));
    }

    method CreateAnimation()
      modifies this`animation, this`nextHandle
      ensures State() == Controller.CreateAnimation(old(State()))
    {
      animation := Some(Animation(nextHandle, duration, map[], true));
      nextHandle := nextHandle + 1;
    }

    method DisposeResources()
      requires Valid()
      modifies this, element
      ensures Valid() && State() == Dispose(old(State()))
    {
      if !resourcesInitialized {
        return;
      }
      StopAnimation();
      element.SetChildVisual(None);
      maskVisual := None;
      maskBrush := None;
      animation := None;
      resourcesInitialized := false;
    }

    method OnSizeChanged()
      requires Valid()
      modifies this, element
      ensures Valid() && State() == SizeChanged(old(State()), brighten)
    {
      var ok := CheckResourcesInitialization();
      if ok {
        UpdateAnimationKeeps(State());
        UpdateAnimation();
      }
    }

    method CheckResourcesInitialization() returns (ok: bool)
      requires Valid()
      modifies this, element
      ensures Valid()
      ensures (State(), ok) == Controller.CheckResourcesInitialization(old(State()), brighten)
    {
      if resourcesInitialized {
        return true;
      }
      if element.isLoaded {
        InitializeResources();
        return true;
      }
      return false;
    }

    /** Stop, recapture or re-clip, size the sprite, set both key frames, restart if active. */
    method UpdateAnimation()
      requires Ready(State())
      modifies this, element`childVisual
      ensures State() == Controller.UpdateAnimation(old(State()))
    {
      StopAnimation();
      RefreshMaskOrClip();
      SizeAndKeyFrames();
      if isActive {
        StartAnimation();
      }
    }

    /** A panel's mask is captured again; any other element that is neither a shape nor text
        has its clip refreshed. */
    method RefreshMaskOrClip()
      requires Ready(State())
      modifies this`maskBrush, this`maskVisual, this`nextHandle
      ensures State() == Controller.RefreshMaskOrClip(old(State()))
    {
      if element.kind.Panel? {
        maskBrush := Some(maskBrush.value.(mask := MaskFor(element.kind, nextHandle, element.children,
                                                           Vector2(element.width, element.height))));
        nextHandle := nextHandle + 1;
      } else if ClipAttempted(element.kind) {
        var sprite := HandleCornerRadiusClip(maskVisual.value);
        maskVisual := Some(sprite);
      }
    }

    /** The sprite takes the element's size and the key frames are inserted. */
    method SizeAndKeyFrames()
      requires Ready(State())
      modifies this`maskVisual, this`animation
      ensures State() == Controller.SizeAndKeyFrames(old(State()))
    {
      var w, h := element.width, element.height;
      maskVisual := Some(maskVisual.value.(size := Vector2(w, h)));
      var an := animation.value;
      an := an.(keyFrames := an.keyFrames[0.0 := -w / 2.0]);
      an := an.(keyFrames := an.keyFrames[1.0 := w * 2.0]);
      animation := Some(an);
    }

    method StartAnimation()
      requires Ready(State())
      modifies this`maskBrush, element`childVisual
      ensures State() == Controller.StartAnimation(old(State()))
    {
      element.SetChildVisual(Some(maskVisual.value.handle));
      var mb := maskBrush.value;
      if mb.source.Some? {
        maskBrush := Some(mb.(sourceAnimating := true));
      }
    }

    method StopAnimation()
      requires maskBrush.Some?
      modifies this`maskBrush, element`childVisual
      ensures State() == Controller.StopAnimation(old(State()))
    {
      var mb := maskBrush.value;
      if mb.source.Some? {
        maskBrush := Some(mb.(sourceAnimating := false));
      }
      element.SetChildVisual(None);
    }

    /** Gives the mask brush a new source; with no mask brush this is the null dereference. */
    method UpdateMaskBrushSource(source: Option<Brush>) returns (outcome: Outcome)
      modifies this`maskBrush
      ensures outcome == NullReference <==> old(maskBrush).None?
      ensures State() == if old(maskBrush).None? then old(State()) else SetSource(old(State()), source)
    {
      if maskBrush.None? {
        return NullReference;
      }
      var mb := maskBrush.value;
      maskBrush := Some(MaskBrush(mb.handle, mb.mask, source, false));
      return Completed;
    }

    method RemoveColorListeners()
      modifies element`registrations
      ensures State() == Controller.RemoveColorListeners(old(State()))
    {
      if colorListenerToken.Some? {
        element.UnregisterPropertyChangedCallback(colorListenerToken.value);
      }
    }

    method AddColorListeners()
      modifies this`colorListenerToken, element`registrations, element`nextToken
      ensures State() == Controller.AddColorListeners(old(State()))
    {
      if ColorSourceProperty(element.kind).Some? {
        var token := element.RegisterPropertyChangedCallback();
        colorListenerToken := Some(token);
      }
    }

    /** The brightened base colour of the element. */
    function CalculateAlternativeColor(): (c: Color)
      reads this, element
      ensures c == DerivedColor(State(), brighten)
    {
      brighten(BaseColor(element.kind, element.basePaint))
    }

    /** Paint-source resolution, in priority order brush, colour, derived colour. */
    method CheckMaskBrushSource() returns (outcome: Outcome)
      modifies this`maskBrush, this`colorListenerToken, element`registrations, element`nextToken
      ensures State() == ResolveSource(old(State()), brighten)
      ensures outcome == NullReference <==> ResolveFaults(old(State()))
    {
      if !hasCompositor {
        return Completed;
      }
      if brush.Some? {
        var source := GetCompositionBrush(brush.value.paint);
        outcome := UpdateMaskBrushSource(source);
        if outcome == NullReference {
          return;
        }
        RemoveColorListeners();
        return;
      }
      if color.Some? {
        outcome := UpdateMaskBrushSource(Some(GetBrushForColor(color.value)));
        if outcome == NullReference {
          return;
        }
        RemoveColorListeners();
        return;
      }
      AddColorListeners();
      outcome := UpdateMaskBrushSource(Some(GetBrushForColor(CalculateAlternativeColor())));
    }

    /** The base paint property changed. */
    method OnColorSourceUpdated() returns (outcome: Outcome)
      requires Valid()
      modifies this, element
      ensures Valid() && State() == ColorSourceUpdated(old(State()), brighten)
      ensures outcome == NullReference <==> ResolveFaults(old(State()))
    {
      outcome := CheckMaskBrushSource();
      ResolveKeeps(old(State()), brighten);
    }

    method SetIsActive(value: bool)
      requires Valid()
      modifies this, element
      ensures Valid() && State() == SetActive(old(State()), value)
    {
      if isActive == value {
        return;
      }
      isActive := value;
      if !resourcesInitialized {
        return;
      }
      if isActive {
        StartAnimation();
      } else {
        StopAnimation();
      }
    }

    method SetColor(value: Option<Color>) returns (outcome: Outcome)
      requires Valid()
      modifies this, element
      ensures Valid() && State() == Controller.SetColor(old(State()), value, brighten)
      ensures outcome == NullReference <==> SetColorFaults(old(State()), value)
    {
      if color == value {
        return Completed;
      }
      color := value;
      ResolveKeeps(State(), brighten);
      outcome := CheckMaskBrushSource();
    }

    method SetBrush(value: Option<Xaml.Brush>) returns (outcome: Outcome)
      requires Valid()
      modifies this, element
      ensures Valid() && State() == Controller.SetBrush(old(State()), value, brighten)
      ensures outcome == NullReference <==> SetBrushFaults(old(State()), value)
    {
      if Xaml.SameReference(brush, value) {
        return Completed;
      }
      brush := value;
      ResolveKeeps(State(), brighten);
      outcome := CheckMaskBrushSource();
    }

    method SetDuration(value: int)
      requires Valid()
      modifies this
      ensures Valid() && State() == Controller.SetDuration(old(State()), value)
    {
      if duration == value || value < MinDuration || value > MaxDuration {
        return;
      }
      duration := value;
      if animation.Some? {
        animation := Some(animation.value.(duration := value));
      }
    }
  }
}
