/** The effect controller as a state machine over one snapshot of its fields and of the few
    host slots it reads or writes. Each operation of the controller is a function from the
    snapshot before to the snapshot after; the class in module Shimmering is proved to do
    exactly these steps. */
module Controller {
  import opened Wrappers
  import opened Colors
  import opened Geometry
  import Xaml
  import opened Composition
  import opened Brushes
  import opened Elements

  /** Durations are in ticks of 100 ns, as the host's time spans are. */
  const TicksPerMillisecond: int := 10_000
  const MinDuration: int := TicksPerMillisecond
  const MaxDuration: int := 24 * 24 * 60 * 60 * 1000 * TicksPerMillisecond
  const DefaultDuration: int := 1000 * TicksPerMillisecond

  /** The controller's state together with the host element's.
      Host side: the element's kind, whether it is loaded, its render size, the current value
      of its base paint property, its child count (panels), its overlay child visual slot (the
      handle of the visual it shows, if any), the live property-change registrations and the
      host's next registration token.
      Controller side: the initialized flag, whether a compositor has been acquired, the four
      settable properties, the stored listener token, the mask brush, the sprite visual, the
      animation, and the next handle for a newly created compositor object. */
  datatype Snapshot = Snapshot(
    kind: ElementKind, loaded: bool, width: real, height: real, basePaint: Option<Xaml.Brush>, children: nat,
    overlay: Option<nat>, registrations: set<nat>, nextToken: nat,
    initialized: bool, compositor: bool,
    isActive: bool, color: Option<Color>, brush: Option<Xaml.Brush>, duration: int,
    token: Option<nat>,
    maskBrush: Option<MaskBrush>, maskVisual: Option<SpriteVisual>, animation: Option<Animation>,
    nextHandle: nat)

  /** How an operation ends: normally, or with a null dereference of the mask brush. */
  datatype Outcome = Completed | NullReference

  /** A controller just bound to an element that shows no overlay, before any event. */
  function Fresh(kind: ElementKind, loaded: bool, width: real, height: real, basePaint: Option<Xaml.Brush>,
                 children: nat, registrations: set<nat>, nextToken: nat): (s: Snapshot)
    requires forall t :: t in registrations ==> t < nextToken
    ensures Valid(s)
    ensures !s.initialized && !s.compositor && !s.isActive && s.color.None? && s.brush.None?
    ensures s.duration == DefaultDuration && s.overlay.None? && s.token.None?
  {
    Snapshot(kind, loaded, width, height, basePaint, children, None, registrations, nextToken,
             false, false, false, None, None, DefaultDuration, None, None, None, None, 0)
  }

  /** Construction: bind to the element and initialize at once if it is already loaded. */
  function Bind(kind: ElementKind, loaded: bool, width: real, height: real, basePaint: Option<Xaml.Brush>,
                children: nat, registrations: set<nat>, nextToken: nat, brighten: Color -> Color): (s: Snapshot)
    requires forall t :: t in registrations ==> t < nextToken
    ensures Valid(s) && s.initialized == loaded
  {
    var s0 := Fresh(kind, loaded, width, height, basePaint, children, registrations, nextToken);
    if loaded then Init(s0, brighten) else s0
  }

  predicate Ready(s: Snapshot) {
    s.maskBrush.Some? && s.maskVisual.Some? && s.animation.Some?
  }

  /** The invariant every operation keeps: the resources exist exactly while initialized, the
      overlay shows the sprite exactly while initialized and active, the band animates only
      then, the duration is within the accepted range, and every token or handle in use was
      handed out before. */
  predicate Valid(s: Snapshot) {
    && (s.initialized ==>
          && Ready(s) && s.compositor
          && s.maskVisual.value.brush == s.maskBrush.value.handle
          && s.animation.value.duration == s.duration && s.animation.value.loopsForever
          && s.animation.value.keyFrames.Keys == {0.0, 1.0}
          && s.maskBrush.value.handle < s.nextHandle && s.maskVisual.value.handle < s.nextHandle
          && s.animation.value.handle < s.nextHandle)
    && (!s.initialized ==> s.maskBrush.None? && s.maskVisual.None? && s.animation.None?)
    && s.overlay == (if s.initialized && s.isActive then Some(s.maskVisual.value.handle) else None)
    && (s.initialized && s.maskBrush.value.sourceAnimating ==> s.isActive && s.maskBrush.value.source.Some?)
    && MinDuration <= s.duration <= MaxDuration
    && (s.token.Some? ==> s.token.value < s.nextToken)
    && (forall t :: t in s.registrations ==> t < s.nextToken)
  }

  // ---------------------------------------------------------------------------------------
  // Steps

  /** Shows the sprite in the overlay slot and starts the band's offset animation, if the mask
      brush has a source. */
  function StartAnimation(s: Snapshot): (r: Snapshot)
    requires Ready(s)
    ensures r == s.(overlay := r.overlay, maskBrush := r.maskBrush)
    ensures r.overlay == Some(s.maskVisual.value.handle)
    ensures r.maskBrush == Some(if s.maskBrush.value.source.Some? then s.maskBrush.value.(sourceAnimating := true)
                                else s.maskBrush.value)
  {
    var mb := s.maskBrush.value;
    s.(overlay := Some(s.maskVisual.value.handle),
       maskBrush := Some(if mb.source.Some? then mb.(sourceAnimating := true) else mb))
  }

  /** Stops the band's offset animation, if the mask brush has a source, and empties the
      overlay slot. */
  function StopAnimation(s: Snapshot): (r: Snapshot)
    requires s.maskBrush.Some?
    ensures r == s.(overlay := None, maskBrush := r.maskBrush)
    ensures r.maskBrush == Some(if s.maskBrush.value.source.Some? then s.maskBrush.value.(sourceAnimating := false)
                                else s.maskBrush.value)
  {
    var mb := s.maskBrush.value;
    s.(overlay := None, maskBrush := Some(if mb.source.Some? then mb.(sourceAnimating := false) else mb))
  }

  /** Gives the mask brush a new source; a new source object is not animating. */
  function SetSource(s: Snapshot, source: Option<Brush>): Snapshot
    requires s.maskBrush.Some?
  {
    var mb := s.maskBrush.value;
    s.(maskBrush := Some(MaskBrush(mb.handle, mb.mask, source, false)))
  }

  /** Unregisters the stored listener token, if there is one; the token itself is kept. */
  function RemoveColorListeners(s: Snapshot): (r: Snapshot)
    ensures r.token == s.token
    ensures r.registrations == if s.token.Some? then s.registrations - {s.token.value} else s.registrations
    ensures r == s.(registrations := r.registrations)
  {
    if s.token.Some? then s.(registrations := s.registrations - {s.token.value}) else s
  }

  /** Registers a new listener on the element's base paint property, if it has one, and
      stores its token in place of the previous one, which stays registered. */
  function AddColorListeners(s: Snapshot): (r: Snapshot)
    ensures ColorSourceProperty(s.kind).None? ==> r == s
    ensures ColorSourceProperty(s.kind).Some? ==>
      r == s.(token := Some(s.nextToken), registrations := s.registrations + {s.nextToken}, nextToken := s.nextToken + 1)
  {
    if ColorSourceProperty(s.kind).Some?
    then s.(token := Some(s.nextToken), registrations := s.registrations + {s.nextToken}, nextToken := s.nextToken + 1)
    else s
  }

  /** The colour the derived band is built from. */
  function DerivedColor(s: Snapshot, brighten: Color -> Color): Color {
    brighten(BaseColor(s.kind, s.basePaint))
  }

  /** Whether resolving the paint source dereferences a missing mask brush: a compositor was
      acquired once (it is never released) but the resources have since been disposed. */
  predicate ResolveFaults(s: Snapshot) {
    s.compositor && s.maskBrush.None?
  }

  /** Paint-source resolution: brush first, then colour, then the derived colour; the first
      two drop the listener, the third registers one. Nothing happens before a compositor has
      been acquired. On a fault, what ran before the dereference has taken effect. */
  function ResolveSource(s: Snapshot, brighten: Color -> Color): (r: Snapshot)
    ensures r.maskBrush.Some? == s.maskBrush.Some?
    ensures r.maskBrush.Some? ==> r.maskBrush.value.handle == s.maskBrush.value.handle
                                  && r.maskBrush.value.mask == s.maskBrush.value.mask
    ensures r.kind == s.kind && r.loaded == s.loaded && r.width == s.width && r.height == s.height
    ensures r.basePaint == s.basePaint && r.children == s.children && r.overlay == s.overlay
    ensures r.initialized == s.initialized && r.compositor == s.compositor && r.isActive == s.isActive
    ensures r.color == s.color && r.brush == s.brush && r.duration == s.duration
    ensures r.maskVisual == s.maskVisual && r.animation == s.animation && r.nextHandle == s.nextHandle
    ensures s.nextToken <= r.nextToken
    ensures r.token.Some? ==> r.token.value < r.nextToken || r.token == s.token
    ensures forall t :: t in r.registrations ==> t in s.registrations || s.nextToken <= t < r.nextToken
    ensures r.maskBrush.Some? && r.maskBrush != s.maskBrush ==> !r.maskBrush.value.sourceAnimating
  {
    if !s.compositor then s
    else if s.brush.Some? then ResolveExplicit(s, Translate(s.brush.value.paint))
    else if s.color.Some? then ResolveExplicit(s, Some(GetBrushForColor(s.color.value)))
    else ResolveDerived(s, brighten)
  }

  /** An explicit brush or colour: install its source, then drop the listener. */
  function ResolveExplicit(s: Snapshot, source: Option<Brush>): (r: Snapshot)
    ensures r.maskBrush.Some? == s.maskBrush.Some?
    ensures r.maskBrush.Some? ==> r.maskBrush.value.handle == s.maskBrush.value.handle
                                  && r.maskBrush.value.mask == s.maskBrush.value.mask
    ensures r.maskBrush.Some? && r.maskBrush != s.maskBrush ==> !r.maskBrush.value.sourceAnimating
    ensures r.token == s.token && r.nextToken == s.nextToken && r.registrations <= s.registrations
    ensures r == s.(maskBrush := r.maskBrush, registrations := r.registrations)
    ensures s.maskBrush.Some? ==>
      && r.maskBrush.value.source == source
      && r.registrations == (if s.token.Some? then s.registrations - {s.token.value} else s.registrations)
    ensures s.maskBrush.None? ==> r == s
  {
    if s.maskBrush.None? then s
    else RemoveColorListeners(SetSource(s, source))
  }

  /** No brush and no colour: register a listener, then install the derived colour's band. */
  function ResolveDerived(s: Snapshot, brighten: Color -> Color): (r: Snapshot)
    ensures r.maskBrush.Some? == s.maskBrush.Some?
    ensures r.maskBrush.Some? ==> r.maskBrush.value.handle == s.maskBrush.value.handle
                                  && r.maskBrush.value.mask == s.maskBrush.value.mask
    ensures r.maskBrush.Some? && r.maskBrush != s.maskBrush ==> !r.maskBrush.value.sourceAnimating
    ensures s.nextToken <= r.nextToken
    ensures r.token.Some? ==> r.token.value < r.nextToken || r.token == s.token
    ensures forall t :: t in r.registrations ==> t in s.registrations || s.nextToken <= t < r.nextToken
    ensures r == s.(maskBrush := r.maskBrush, token := r.token, registrations := r.registrations, nextToken := r.nextToken)
  {
    var s1 := AddColorListeners(s);
    if s1.maskBrush.None? then s1
    else SetSource(s1, Some(GetBrushForColor(DerivedColor(s1, brighten))))
  }

  /** Creates the mask brush with the mask for the element's kind and no source yet. */
  function CreateMaskBrush(s: Snapshot): Snapshot {
    var h := s.nextHandle;
    s.(maskBrush := Some(MaskBrush(h, MaskFor(s.kind, h + 1, s.children, Vector2(s.width, s.height)), None, false)),
       nextHandle := h + 2)
  }

  /** Creates the sprite visual painted with the mask brush, clipped to the rounded rectangle
      when the element is neither a shape nor text and has corner radii. */
  function CreateMaskVisual(s: Snapshot): Snapshot
    requires s.maskBrush.Some?
  {
    var clip := if ClipAttempted(s.kind) then ClipFor(s.kind, s.width, s.height, None) else None;
    s.(maskVisual := Some(SpriteVisual(s.nextHandle, s.maskBrush.value.handle, Vector2(0.0, 0.0), clip)),
       nextHandle := s.nextHandle + 1)
  }

  /** Creates the looping animation with the configured duration and no key frames. */
  function CreateAnimation(s: Snapshot): Snapshot {
    s.(animation := Some(Animation(s.nextHandle, s.duration, map[], true)), nextHandle := s.nextHandle + 1)
  }

  /** Recaptures a panel's mask from its current children and size, or refreshes the clip of
      any other element that is neither a shape nor text. */
  function RefreshMaskOrClip(s: Snapshot): (r: Snapshot)
    requires Ready(s)
    ensures Ready(r) && r.maskBrush.value.source == s.maskBrush.value.source
    ensures r.maskBrush.value.handle == s.maskBrush.value.handle
    ensures r.maskBrush.value.sourceAnimating == s.maskBrush.value.sourceAnimating
    ensures r.maskVisual.value.handle == s.maskVisual.value.handle && r.maskVisual.value.brush == s.maskVisual.value.brush
    ensures r == s.(maskBrush := r.maskBrush, maskVisual := r.maskVisual, nextHandle := r.nextHandle)
  {
    if s.kind.Panel? then
      s.(maskBrush := Some(s.maskBrush.value.(mask := MaskFor(s.kind, s.nextHandle, s.children, Vector2(s.width, s.height)))),
         nextHandle := s.nextHandle + 1)
    else if ClipAttempted(s.kind) then
      s.(maskVisual := Some(s.maskVisual.value.(clip := ClipFor(s.kind, s.width, s.height, s.maskVisual.value.clip))))
    else s
  }

  /** Sizes the sprite to the element and sets the key frames: progress 0 at minus half the
      width, progress 1 at twice the width. */
  function SizeAndKeyFrames(s: Snapshot): (r: Snapshot)
    requires Ready(s)
    ensures Ready(r) && r.maskBrush == s.maskBrush
    ensures r.maskVisual.value.handle == s.maskVisual.value.handle && r.maskVisual.value.brush == s.maskVisual.value.brush
    ensures r.maskVisual.value.size == Vector2(s.width, s.height)
    ensures r.animation.value.keyFrames.Keys == s.animation.value.keyFrames.Keys + {0.0, 1.0}
    ensures r.animation.value.keyFrames[0.0] == -s.width / 2.0 && r.animation.value.keyFrames[1.0] == s.width * 2.0
    ensures r == s.(maskVisual := r.maskVisual, animation := r.animation)
  {
    var an := s.animation.value;
    s.(maskVisual := Some(s.maskVisual.value.(size := Vector2(s.width, s.height))),
       animation := Some(an.(keyFrames := an.keyFrames[0.0 := -s.width / 2.0][1.0 := s.width * 2.0])))
  }

  /** Rebuild for the current size: stop; recapture the mask or refresh the clip; size the
      sprite and set the key frames; restart if active. */
  function UpdateAnimation(s: Snapshot): (r: Snapshot)
    requires Ready(s)
    ensures Ready(r)
    ensures r.maskBrush.value.handle == s.maskBrush.value.handle && r.maskBrush.value.source == s.maskBrush.value.source
    ensures r.maskVisual.value.handle == s.maskVisual.value.handle && r.maskVisual.value.brush == s.maskVisual.value.brush
    ensures r.animation.value.handle == s.animation.value.handle
    ensures r.animation.value.keyFrames.Keys == s.animation.value.keyFrames.Keys + {0.0, 1.0}
  {
    var s3 := SizeAndKeyFrames(RefreshMaskOrClip(StopAnimation(s)));
    if s3.isActive then StartAnimation(s3) else s3
  }

  // ---------------------------------------------------------------------------------------
  // Operations

  /** Creating the resources before they are sized: the compositor is acquired, the mask
      brush (its source resolved), the sprite painted with it and the looping animation exist,
      with fresh handles, and nothing animates or is shown yet. */
  function Build(s: Snapshot, brighten: Color -> Color): (r: Snapshot)
    requires Valid(s) && !s.initialized
    ensures Ready(r) && r.compositor && !r.initialized
    ensures r.maskVisual.value.brush == r.maskBrush.value.handle
    ensures r.animation.value.duration == r.duration && r.animation.value.loopsForever
    ensures r.maskBrush.value.handle < r.nextHandle && r.maskVisual.value.handle < r.nextHandle
    ensures r.animation.value.handle < r.nextHandle
    ensures !r.maskBrush.value.sourceAnimating
    ensures r.animation.value.keyFrames == map[]
    ensures s.nextHandle <= r.maskBrush.value.handle && s.nextHandle <= r.maskVisual.value.handle
    ensures s.nextHandle <= r.animation.value.handle
    ensures r.duration == s.duration && r.isActive == s.isActive
    ensures r.token.Some? ==> r.token.value < r.nextToken
    ensures forall t :: t in r.registrations ==> t < r.nextToken
  {
    var s1 := CreateMaskBrush(s.(compositor := true));
    var s2 := ResolveSource(s1, brighten);
    assert s2.token.Some? ==> s2.token.value < s2.nextToken;
    var s3 := CreateMaskVisual(s2);
    CreateAnimation(s3)
  }

  /** Resource initialization: nothing when already initialized; otherwise acquire the
      compositor, build the mask brush, resolve its source, build the sprite and the
      animation, size everything, and only then set the flag. */
  function Init(s: Snapshot, brighten: Color -> Color): (r: Snapshot)
    requires Valid(s)
    ensures Valid(r) && r.initialized
  {
    if s.initialized then s
    else
      var b := Build(s, brighten);
      UpdateAnimationKeeps(b);
      UpdateAnimation(b).(initialized := true)
  }

  /** Disposal: nothing when not initialized; otherwise stop, empty the overlay slot, drop the
      sprite, the mask brush and the animation, and clear the flag. */
  function Dispose(s: Snapshot): (r: Snapshot)
    requires Valid(s)
    ensures Valid(r) && !r.initialized
  {
    if !s.initialized then s
    else StopAnimation(s).(overlay := None, maskVisual := None, maskBrush := None, animation := None,
                           initialized := false)
  }

  /** Whether the resources exist after a size change: initializes first when the element is
      loaded but the resources are missing. */
  function CheckResourcesInitialization(s: Snapshot, brighten: Color -> Color): (r: (Snapshot, bool))
    requires Valid(s)
    ensures Valid(r.0) && r.1 == r.0.initialized
    ensures r.1 <==> s.initialized || s.loaded
  {
    if s.initialized then (s, true)
    else if s.loaded then (Init(s, brighten), true)
    else (s, false)
  }

  function SizeChanged(s: Snapshot, brighten: Color -> Color): (r: Snapshot)
    requires Valid(s)
    ensures Valid(r)
  {
    var (s1, ok) := CheckResourcesInitialization(s, brighten);
    if ok then
      UpdateAnimationKeeps(s1);
      UpdateAnimation(s1)
    else s1
  }

  function SetActive(s: Snapshot, v: bool): (r: Snapshot)
    requires Valid(s)
    ensures Valid(r)
  {
    if s.isActive == v then s
    else
      var s1 := s.(isActive := v);
      if !s1.initialized then s1
      else if v then StartAnimation(s1)
      else StopAnimation(s1)
  }

  function SetColor(s: Snapshot, v: Option<Color>, brighten: Color -> Color): (r: Snapshot)
    requires Valid(s)
    ensures Valid(r)
  {
    if s.color == v then s else ResolveKeeps(s.(color := v), brighten); ResolveSource(s.(color := v), brighten)
  }

  predicate SetColorFaults(s: Snapshot, v: Option<Color>) {
    s.color != v && ResolveFaults(s)
  }

  function SetBrush(s: Snapshot, v: Option<Xaml.Brush>, brighten: Color -> Color): (r: Snapshot)
    requires Valid(s)
    ensures Valid(r)
  {
    if Xaml.SameReference(s.brush, v) then s else ResolveKeeps(s.(brush := v), brighten); ResolveSource(s.(brush := v), brighten)
  }

  predicate SetBrushFaults(s: Snapshot, v: Option<Xaml.Brush>) {
    !Xaml.SameReference(s.brush, v) && ResolveFaults(s)
  }

  /** The duration guard: any value other than the current one, from 1 ms up to and
      including 24 days. */
  predicate DurationAccepted(current: int, v: int) {
    !(current == v || v < MinDuration || v > MaxDuration)
  }

  function SetDuration(s: Snapshot, v: int): (r: Snapshot)
    requires Valid(s)
    ensures Valid(r)
  {
    if !DurationAccepted(s.duration, v) then s
    else s.(duration := v, animation := if s.animation.Some? then Some(s.animation.value.(duration := v)) else None)
  }

  /** The base paint changed while a listener was registered. */
  function ColorSourceUpdated(s: Snapshot, brighten: Color -> Color): (r: Snapshot)
    requires Valid(s)
    ensures Valid(r)
  {
    ResolveKeeps(s, brighten);
    ResolveSource(s, brighten)
  }

  // ---------------------------------------------------------------------------------------
  // The invariant is kept

  lemma ResolveKeeps(s: Snapshot, brighten: Color -> Color)
    requires Valid(s)
    ensures Valid(ResolveSource(s, brighten))
  {
  }

  lemma UpdateAnimationKeeps(s: Snapshot)
    requires Ready(s) && s.compositor
    requires s.maskVisual.value.brush == s.maskBrush.value.handle
    requires s.animation.value.duration == s.duration && s.animation.value.loopsForever
    requires s.animation.value.keyFrames.Keys <= {0.0, 1.0}
    requires s.maskBrush.value.handle < s.nextHandle && s.maskVisual.value.handle < s.nextHandle
    requires s.animation.value.handle < s.nextHandle
    requires s.maskBrush.value.sourceAnimating ==> s.maskBrush.value.source.Some?
    requires MinDuration <= s.duration <= MaxDuration
    requires s.token.Some? ==> s.token.value < s.nextToken
    requires forall t :: t in s.registrations ==> t < s.nextToken
    ensures Valid(UpdateAnimation(s).(initialized := true))
  {
  }
}
