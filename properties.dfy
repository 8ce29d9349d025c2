/** What the controller promises, stated over the transition functions of module Controller:
    the setters' no-op rules, source priority, idempotent lifecycle, the resize rules and the
    quirks the code has (a stale compositor, a kept token, accumulating registrations). */
module Properties {
  import opened Wrappers
  import opened Colors
  import opened Geometry
  import Xaml
  import opened Composition
  import opened Brushes
  import opened Elements
  import opened Controller

  // ---------------------------------------------------------------------------------------
  // Duration

  /** The guard admits exactly the values from 1 ms to 24 days, both ends included, other
      than the current one. */
  lemma DurationRange(current: int, v: int)
    ensures DurationAccepted(current, v) <==> v != current && 10_000 <= v <= 20_736_000_000_000
    ensures MinDuration == 1 * TicksPerMillisecond && MaxDuration == 24 * 86_400_000 * TicksPerMillisecond
  {
  }

  /** Setting the duration leaves the state alone exactly when the value is the current one or
      outside the accepted range; otherwise only the stored duration and the live animation's
      duration change: the overlay, the running band and the key frames are untouched. */
  lemma DurationSetter(s: Snapshot, v: int)
    requires Valid(s)
    ensures SetDuration(s, v) == s <==> (v == s.duration || v < MinDuration || v > MaxDuration)
    ensures DurationAccepted(s.duration, v) ==>
      var r := SetDuration(s, v);
      && r.duration == v
      && (s.animation.Some? ==> r.animation == Some(s.animation.value.(duration := v)))
      && (s.animation.None? ==> r.animation.None?)
      && r == s.(duration := v, animation := r.animation)
  {
    if DurationAccepted(s.duration, v) {
      assert SetDuration(s, v).duration != s.duration;
    }
  }

  // ---------------------------------------------------------------------------------------
  // Source priority

  /** The intended mask source, written independently of the resolution order: a brush's
      translation when a brush is set, otherwise the band of the colour, or of the derived
      colour when no colour is set. */
  function IntendedSource(brush: Option<Xaml.Brush>, color: Option<Color>, derived: Color): Option<Brush> {
    match brush
    case Some(b) => Translate(b.paint)
    case None => Some(GetBrushForColor(color.GetOr(derived)))
  }

  /** Once resources exist, resolution installs the intended source (not yet animating); an
      explicit brush or colour unregisters the stored token and keeps it, and neither of them
      registers anything; with neither, exactly one new listener is registered on the
      element's base paint property (if it has one) and the previous token is overwritten
      without being unregistered. Nothing outside the mask brush and the listener state moves. */
  lemma SourcePriority(s: Snapshot, brighten: Color -> Color)
    requires s.compositor && s.maskBrush.Some?
    ensures var r := ResolveSource(s, brighten);
      && r.maskBrush.value.source == IntendedSource(s.brush, s.color, DerivedColor(s, brighten))
      && !r.maskBrush.value.sourceAnimating
      && r.maskBrush.value.mask == s.maskBrush.value.mask
      && r.overlay == s.overlay && r.maskVisual == s.maskVisual && r.animation == s.animation
      && (s.brush.Some? || s.color.Some? ==>
            && r.token == s.token && r.nextToken == s.nextToken
            && r.registrations == (if s.token.Some? then s.registrations - {s.token.value} else s.registrations))
      && (s.brush.None? && s.color.None? && ColorSourceProperty(s.kind).Some? ==>
            && r.token == Some(s.nextToken) && r.nextToken == s.nextToken + 1
            && r.registrations == s.registrations + {s.nextToken})
      && (s.brush.None? && s.color.None? && ColorSourceProperty(s.kind).None? ==>
            r.token == s.token && r.registrations == s.registrations)
  {
    if s.brush.Some? {
      ExplicitSource(s, Translate(s.brush.value.paint));
    } else if s.color.Some? {
      ExplicitSource(s, Some(GetBrushForColor(s.color.value)));
    } else {
      DerivedSource(s, brighten);
    }
  }

  /** An explicit brush or colour: the source is installed, the token is unregistered and
      kept, and nothing else moves. */
  lemma ExplicitSource(s: Snapshot, src: Option<Brush>)
    requires s.maskBrush.Some?
    ensures var r := RemoveColorListeners(SetSource(s, src));
      && r.maskBrush.value.source == src && !r.maskBrush.value.sourceAnimating
      && r.maskBrush.value.mask == s.maskBrush.value.mask
      && r.overlay == s.overlay && r.maskVisual == s.maskVisual && r.animation == s.animation
      && r.token == s.token && r.nextToken == s.nextToken
      && r.registrations == (if s.token.Some? then s.registrations - {s.token.value} else s.registrations)
  {
  }

  /** The derived colour: a listener is registered when the element has a base paint
      property, and the source is the band of the brightened base colour. */
  lemma DerivedSource(s: Snapshot, brighten: Color -> Color)
    requires s.maskBrush.Some?
    ensures var r := SetSource(AddColorListeners(s), Some(GetBrushForColor(DerivedColor(s, brighten))));
      && DerivedColor(AddColorListeners(s), brighten) == DerivedColor(s, brighten)
      && r.maskBrush.value.source == Some(GetBrushForColor(DerivedColor(s, brighten)))
      && !r.maskBrush.value.sourceAnimating
      && r.maskBrush.value.mask == s.maskBrush.value.mask
      && r.overlay == s.overlay && r.maskVisual == s.maskVisual && r.animation == s.animation
      && (ColorSourceProperty(s.kind).Some? ==>
            && r.token == Some(s.nextToken) && r.nextToken == s.nextToken + 1
            && r.registrations == s.registrations + {s.nextToken})
      && (ColorSourceProperty(s.kind).None? ==> r.token == s.token && r.registrations == s.registrations)
  {
  }

  /** With a brush set, the colour has no influence at all on the resolved state. */
  lemma BrushOverridesColor(s: Snapshot, c1: Option<Color>, c2: Option<Color>, brighten: Color -> Color)
    requires s.brush.Some?
    ensures ResolveSource(s.(color := c1), brighten) == ResolveSource(s, brighten).(color := c1)
    ensures ResolveSource(s.(color := c1), brighten).maskBrush == ResolveSource(s.(color := c2), brighten).maskBrush
  {
  }

  /** Before a compositor has been acquired, resolution does nothing and cannot fault, so the
      colour and brush setters only store their value. */
  lemma NothingWithoutCompositor(s: Snapshot, c: Option<Color>, b: Option<Xaml.Brush>, brighten: Color -> Color)
    requires Valid(s) && !s.compositor
    ensures ResolveSource(s, brighten) == s && !ResolveFaults(s)
    ensures SetColor(s, c, brighten) == s.(color := c) && !SetColorFaults(s, c)
    ensures SetBrush(s, b, brighten) == (if Xaml.SameReference(s.brush, b) then s else s.(brush := b))
    ensures !SetBrushFaults(s, b)
  {
  }

  /** Every setter ignores the value it already holds. */
  lemma SettersIgnoreEqualValue(s: Snapshot, brighten: Color -> Color)
    requires Valid(s)
    ensures SetColor(s, s.color, brighten) == s && !SetColorFaults(s, s.color)
    ensures SetBrush(s, s.brush, brighten) == s && !SetBrushFaults(s, s.brush)
    ensures SetActive(s, s.isActive) == s
    ensures SetDuration(s, s.duration) == s
  {
  }

  /** The brush setter compares references: assigning the object already held (whatever its
      contents) is ignored, and assigning any other reference, or null, stores it. */
  lemma BrushComparedByReference(s: Snapshot, b: Option<Xaml.Brush>, brighten: Color -> Color)
    requires Valid(s)
    ensures Xaml.SameReference(s.brush, b) ==> SetBrush(s, b, brighten) == s && !SetBrushFaults(s, b)
    ensures !Xaml.SameReference(s.brush, b) ==> SetBrush(s, b, brighten).brush == b
    ensures s.brush.Some? && b.Some? && b.value.id == s.brush.value.id ==> SetBrush(s, b, brighten) == s
  {
  }

  /** Scenario: on a loaded effect, a colour followed by a linear gradient brush leaves the
      brush's translation as the source, whatever the colour was. */
  lemma ColorThenBrush(s: Snapshot, c: Color, b: Xaml.Brush, brighten: Color -> Color)
    requires Valid(s) && s.initialized && s.brush.None? && s.color != Some(c)
    requires b.paint.LinearGradientBrush?
    ensures var r := SetBrush(SetColor(s, Some(c), brighten), Some(b), brighten);
      && r.maskBrush.value.source == Translate(b.paint)
      && r.maskBrush.value.source.value.LinearGradientBrush?
      && r.maskBrush.value.source.value.stops == TranslateStops(b.paint.stops)
  {
    var s1 := SetColor(s, Some(c), brighten);
    SourcePriority(s1.(brush := Some(b)), brighten);
  }

  // ---------------------------------------------------------------------------------------
  // Initialization and disposal

  /** Initializing twice is initializing once; disposing twice is disposing once. */
  lemma LifecycleIdempotent(s: Snapshot, brighten: Color -> Color)
    requires Valid(s)
    ensures Init(Init(s, brighten), brighten) == Init(s, brighten)
    ensures Dispose(Dispose(s)) == Dispose(s)
    ensures s.initialized ==> Init(s, brighten) == s
    ensures !s.initialized ==> Dispose(s) == s
  {
  }

  /** What initialization builds: the intended source, a sprite of the element's size painted
      with the mask brush, a looping animation of the configured duration whose key frames
      run from minus half the width to twice the width, and the overlay and the band's motion
      exactly when the effect is active. The settable properties are kept. */
  lemma InitBuilds(s: Snapshot, brighten: Color -> Color)
    requires Valid(s) && !s.initialized
    ensures var r := Init(s, brighten);
      && r.initialized && r.compositor
      && r.isActive == s.isActive && r.color == s.color && r.brush == s.brush && r.duration == s.duration
      && r.maskBrush.value.source == IntendedSource(s.brush, s.color, DerivedColor(s, brighten))
      && (!s.kind.Panel? ==> r.maskBrush.value.mask == MaskFor(s.kind, 0, 0, Vector2(0.0, 0.0)))
      && (s.kind.Panel? ==> r.maskBrush.value.mask.PanelSurface? && r.maskBrush.value.mask.children == s.children
                            && r.maskBrush.value.mask.size == Vector2(s.width, s.height))
      && r.maskVisual.value.clip == (if ClipAttempted(s.kind) then ClipFor(s.kind, s.width, s.height, None) else None)
      && r.maskVisual.value.size == Vector2(s.width, s.height)
      && r.maskVisual.value.brush == r.maskBrush.value.handle
      && r.animation.value.duration == s.duration && r.animation.value.loopsForever
      && r.animation.value.keyFrames == map[0.0 := -s.width / 2.0, 1.0 := s.width * 2.0]
      && r.overlay == (if s.isActive then Some(r.maskVisual.value.handle) else None)
      && r.maskBrush.value.sourceAnimating == (s.isActive && r.maskBrush.value.source.Some?)
  {
    var s1 := CreateMaskBrush(s.(compositor := true));
    SourcePriority(s1, brighten);
    var b := Build(s, brighten);
    assert b.maskBrush.value.source == IntendedSource(s.brush, s.color, DerivedColor(s, brighten));
    var u := UpdateAnimation(b);
    assert u.animation.value.keyFrames == map[0.0 := -s.width / 2.0, 1.0 := s.width * 2.0];
  }

  /** Disposal empties the overlay slot and drops every compositor resource, and keeps the
      settable properties, the acquired compositor, the stored token and every registration. */
  lemma DisposeReleases(s: Snapshot)
    requires Valid(s) && s.initialized
    ensures var r := Dispose(s);
      && !r.initialized && r.overlay.None?
      && r.maskBrush.None? && r.maskVisual.None? && r.animation.None?
      && r.isActive == s.isActive && r.color == s.color && r.brush == s.brush && r.duration == s.duration
      && r.compositor && r.token == s.token && r.registrations == s.registrations
  {
  }

  /** A reload after an unload shows a newly created sprite, not the disposed one. */
  lemma ReloadCreatesNewSprite(s: Snapshot, brighten: Color -> Color)
    requires Valid(s) && s.initialized
    ensures Init(Dispose(s), brighten).maskVisual.value.handle != s.maskVisual.value.handle
    ensures Init(Dispose(s), brighten).maskBrush.value.handle != s.maskBrush.value.handle
  {
    var d := Dispose(s);
    var b := Build(d, brighten);
    assert Init(d, brighten) == UpdateAnimation(b).(initialized := true);
  }

  // ---------------------------------------------------------------------------------------
  // Activation

  /** Before the resources exist, activation only stores the flag: no overlay, no motion. */
  lemma ActivateBeforeLoad(s: Snapshot, v: bool)
    requires Valid(s) && !s.initialized
    ensures SetActive(s, v) == s.(isActive := v)
    ensures SetActive(s, v).overlay.None? && SetActive(s, v).maskBrush.None?
  {
  }

  /** With resources, activating shows the sprite and starts the band (when it has a source);
      deactivating empties the overlay slot and stops the band. */
  lemma ActivateWhenLoaded(s: Snapshot, v: bool)
    requires Valid(s) && s.initialized && v != s.isActive
    ensures var r := SetActive(s, v);
      && r.isActive == v
      && r.overlay == (if v then Some(s.maskVisual.value.handle) else None)
      && r.maskBrush.value.sourceAnimating == (v && s.maskBrush.value.source.Some?)
      && r.maskBrush.value.source == s.maskBrush.value.source
      && r.maskVisual == s.maskVisual && r.animation == s.animation
  {
  }

  // ---------------------------------------------------------------------------------------
  // Resize

  /** A rebuild sizes the sprite to the element, replaces both key frames (they depend on the
      width only), and leaves the overlay and the band's motion on exactly when active: a
      running band is always stopped first and restarted only if active. */
  lemma UpdateAnimationMeaning(s: Snapshot)
    requires Valid(s) && s.initialized
    ensures var r := UpdateAnimation(s);
      && r.maskVisual.value.size == Vector2(s.width, s.height)
      && r.animation.value.keyFrames == map[0.0 := -s.width / 2.0, 1.0 := s.width * 2.0]
      && r.animation.value.duration == s.animation.value.duration
      && r.overlay == (if s.isActive then Some(s.maskVisual.value.handle) else None)
      && r.maskBrush.value.sourceAnimating == (s.isActive && s.maskBrush.value.source.Some?)
      && r.maskBrush.value.source == s.maskBrush.value.source
  {
    var r := UpdateAnimation(s);
    assert r.animation.value.keyFrames.Keys == {0.0, 1.0};
  }

  /** The key frames do not depend on the element's height. */
  lemma KeyFramesIgnoreHeight(s: Snapshot, h1: real, h2: real)
    requires Ready(s)
    ensures UpdateAnimation(s.(height := h1)).animation.value.keyFrames
         == UpdateAnimation(s.(height := h2)).animation.value.keyFrames
  {
  }

  /** A grid's rounded clip is built when the resources are created and is not refreshed by a
      rebuild, which recaptures the panel's mask instead; a control's clip is rebuilt for the
      current size. Shapes and text keep their clip-free sprite. */
  lemma RebuildClipAndMask(s: Snapshot)
    requires Valid(s) && s.initialized
    ensures s.kind.Panel? ==>
      && UpdateAnimation(s).maskVisual.value.clip == s.maskVisual.value.clip
      && UpdateAnimation(s).maskBrush.value.mask == PanelSurface(s.nextHandle, s.children, Vector2(s.width, s.height))
    ensures s.kind.Control? ==>
      UpdateAnimation(s).maskVisual.value.clip == Some(RoundedRectPath(s.width, s.height, s.kind.cornerRadius))
    ensures (s.kind.Shape? || s.kind.TextBlock? || s.kind.Generic?) ==>
      UpdateAnimation(s).maskVisual.value.clip == s.maskVisual.value.clip
      && UpdateAnimation(s).maskBrush.value.mask == s.maskBrush.value.mask
  {
  }

  /** A size change on an element that is neither initialized nor loaded does nothing; on a
      loaded element without resources it initializes and then rebuilds once more. */
  lemma SizeChangeRules(s: Snapshot, brighten: Color -> Color)
    requires Valid(s)
    ensures !s.initialized && !s.loaded ==> SizeChanged(s, brighten) == s
    ensures !s.initialized && s.loaded ==>
      SizeChanged(s, brighten) == UpdateAnimation(Init(s, brighten)) && SizeChanged(s, brighten).initialized
    ensures s.initialized ==> SizeChanged(s, brighten) == UpdateAnimation(s)
  {
  }

  // ---------------------------------------------------------------------------------------
  // Quirks of the code

  /** After an unload, a colour or brush change, or a base paint notification, dereferences
      the disposed mask brush: the compositor reference is never cleared, so resolution gets
      past its guard. */
  lemma ChangeAfterUnloadFaults(s: Snapshot, c: Option<Color>, b: Option<Xaml.Brush>)
    requires Valid(s) && s.initialized
    ensures c != s.color ==> SetColorFaults(Dispose(s), c)
    ensures !Xaml.SameReference(s.brush, b) ==> SetBrushFaults(Dispose(s), b)
    ensures ResolveFaults(Dispose(s))
  {
  }

  /** In derived-colour mode each base paint notification registers one more listener and the
      earlier registration stays live, so the number of registrations grows by one per
      notification. */
  lemma ListenersAccumulate(s: Snapshot, brighten: Color -> Color)
    requires Valid(s) && s.initialized && s.brush.None? && s.color.None?
    requires ColorSourceProperty(s.kind).Some?
    ensures var r := ColorSourceUpdated(s, brighten);
      && r.registrations == s.registrations + {s.nextToken}
      && |r.registrations| == |s.registrations| + 1
      && s.registrations <= r.registrations
  {
    assert s.nextToken !in s.registrations;
  }

  /** A base paint change delivers one callback per live registration: n callbacks in a row. */
  function Callbacks(s: Snapshot, brighten: Color -> Color, n: nat): (r: Snapshot)
    requires Valid(s)
    ensures Valid(r)
    decreases n
  {
    if n == 0 then s else Callbacks(ColorSourceUpdated(s, brighten), brighten, n - 1)
  }

  /** In derived-colour mode n callbacks add n live registrations and keep all earlier ones. */
  lemma {:induction false} CallbacksAccumulate(s: Snapshot, brighten: Color -> Color, n: nat)
    requires Valid(s) && s.initialized && s.brush.None? && s.color.None?
    requires ColorSourceProperty(s.kind).Some?
    ensures |Callbacks(s, brighten, n).registrations| == |s.registrations| + n
    ensures s.registrations <= Callbacks(s, brighten, n).registrations
    decreases n
  {
    if n > 0 {
      var s1 := ColorSourceUpdated(s, brighten);
      ListenersAccumulate(s, brighten);
      CallbacksAccumulate(s1, brighten, n - 1);
    }
  }

  /** After as many derived-mode callbacks as there are live registrations, their number has
      doubled (one base paint change delivers one callback per registration). */
  lemma ListenersDouble(s: Snapshot, brighten: Color -> Color)
    requires Valid(s) && s.initialized && s.brush.None? && s.color.None?
    requires ColorSourceProperty(s.kind).Some?
    ensures |Callbacks(s, brighten, |s.registrations|).registrations| == 2 * |s.registrations|
  {
    CallbacksAccumulate(s, brighten, |s.registrations|);
  }

  /** Changing the colour while the effect is active replaces the band with a brush whose
      motion was never started: the sprite stays shown but the band no longer moves until
      the next rebuild or re-activation. */
  lemma ColorChangeStopsMotion(s: Snapshot, c: Option<Color>, brighten: Color -> Color)
    requires Valid(s) && s.initialized && s.isActive && s.color != c
    ensures var r := SetColor(s, c, brighten);
      && r.overlay == s.overlay && r.overlay.Some?
      && !r.maskBrush.value.sourceAnimating
  {
  }
}
