# SimpleShimmer effect controller, modelled in Dafny

SimpleShimmer draws a moving "shimmer" band over a WinUI element. The band is a gradient brush.
A mask brush masks it to the element's own alpha. A sprite visual shows it in the element's
overlay slot. The sprite is clipped to the element's rounded corners. A looping key-frame
animation slides the band's horizontal offset. The controller, `ShimmeringHelper`, keeps
these compositor resources in step with the element's events:

- load builds them;
- unload releases them;
- a size change rebuilds the key frames, the sprite size and the mask or clip.

It also applies the four settable properties `IsActive`, `Color`, `Brush` and `Duration`.

The project models:

- the controller's state machine;
- the resolution of the band's paint source (brush, then colour, then a derived colour);
- the pure builders: the 4-stop band, the translation of declarative brushes, and the clip path.

It then proves what the controller promises about them.

Layout:

- `wrappers.dfy`, `colors.dfy`: `Option`, and the four-channel colour with byte channels.
- `geometry.dfy`: the rounded-rectangle clip path. It is the list of line and arc segments the path builder receives, over real coordinates.
- `xaml.dfy`, `composition.dfy`: the declarative paints and the compositor objects, as values. The compositor objects whose identity matters carry a handle from the controller's counter: the sprite, the mask brush, the animation, and a panel's captured surface.
- `brushes.dfy`: `GetBrushForColor`, the paint translation (a function) and `GetCompositionBrush`. `GetCompositionBrush` is a method that copies the stops in a loop and is proved equal to the translation.
- `elements.dfy`: the switches on the element's kind. These are the base paint property, the base colour pick, the corner-radius clip and the mask kind.
- `controller.dfy`: a `Snapshot` of the controller's fields plus the host slots it touches. Every operation is a transition function on it. `Valid` is the invariant every operation keeps.
- `properties.dfy`: lemmas over those transitions.
- `shimmering.dfy`: the classes `Element` and `ShimmeringHelper`.
  - `Element` is the host element. It holds the overlay child slot and the property-change registrations.
  - `ShimmeringHelper` is the controller. Its methods update its fields and the element's slots step by step. Each method is proved to perform exactly its transition, and each public one to keep `Valid`.

Host and compositor calls become operations on values or on `Element`:

- `SetElementChildVisual` sets the overlay slot to a sprite handle or empties it.
- `RegisterPropertyChangedCallback` hands out a fresh token and adds it to the live registrations. `UnregisterPropertyChangedCallback` removes it.
- Starting or stopping `Offset.X` on the mask brush's source is the `sourceAnimating` flag on the mask brush. A newly assigned source object is never animating.
- A `NullReferenceException` is the outcome `NullReference`. State changes made before the throw remain.
- Colour brightening (`GetBrighterColor`) is an opaque function the controller is given (`brighten`).
- Durations are `TimeSpan` ticks (100 ns).

These behaviours of the code are kept as they are:

- The duration guard uses strict comparisons. So exactly 1 ms and exactly 24 days are accepted (`DurationRange`).
- Disposal does not unregister the colour listener. `RemoveColorListeners` keeps the token. `AddColorListeners` overwrites it without unregistering the old registration. In derived-colour mode each callback adds one more live registration (`ListenersAccumulate`). A base paint change delivers one callback per live registration, and after as many callbacks as there are registrations their number has doubled (`CallbacksAccumulate`, `ListenersDouble`).
- The `compositor` reference is never cleared. After an unload, a new `Color` or `Brush` value, or a base paint notification from the still-registered listener, dereferences the disposed mask brush (`ChangeAfterUnloadFaults`).
- Rounded-corner clipping applies to controls and grids only, not to other panels or generic elements (`ClipApplicability`). A resize rebuilds a grid's captured mask but not its clip (`RebuildClipAndMask`).
- A linear gradient brush's start and end points are not copied (`LinearEndpointsIgnored`).
- Changing the colour or brush while active installs a source whose offset animation was never started. The sprite stays shown, but the band stops moving until the next resize or re-activation (`ColorChangeStopsMotion`).

## Model

| member | source | states |
|---|---|---|
| Geometry.RoundedRectPath | ShimmeringHelper.cs:480-513 | the clip path; its meaning is stated by PathShape, EdgesAxisParallel, ArcsAreQuarterCircles, PathInsideBounds and PathSignedArea |
| Geometry.PathShape | ShimmeringHelper.cs:480-513 | the clip is a closed figure starting at (tl, 0) with eight segments alternating line and arc; every arc is small, clockwise, with both radii equal to its own corner's radius; the last segment returns to the start |
| Geometry.EdgesAxisParallel | ShimmeringHelper.cs:492-504 | the top and bottom edges are horizontal and the side edges vertical |
| Geometry.ArcsAreQuarterCircles | ShimmeringHelper.cs:494-504 | both ends of every corner arc lie on the circle of that corner's radius around the corner's centre |
| Geometry.PathInsideBounds | ShimmeringHelper.cs:480-513 | when adjacent radii fit the sides they share, every vertex of the figure (its start and the end of each segment) lies within (0..w, 0..h); the arcs between vertices are not bounded by this lemma |
| Geometry.PathSignedArea | ShimmeringHelper.cs:492-506 | twice the signed area of the figure's polygon is 2wh minus the sum of the squared radii |
| Geometry.PathIsClockwise | ShimmeringHelper.cs:492-506 | for a non-empty element with radii at most half the shorter side, the figure runs clockwise on screen (positive signed area) |
| Geometry.UniformRadiusExample | ShimmeringHelper.cs:480-513 | for 100 x 50 with all radii 10: four arcs of radius 10, top and bottom edges 80 long, side edges 30 long |
| Brushes.GetBrushForColor | ShimmeringHelper.cs:325-336 | exactly four stops at offsets 0, 0.25, 0.35, 0.5 in increasing order, all with the colour's RGB; the middle two are the colour, the outer two have alpha 0; default mapping, extend mode and axis |
| Brushes.TranslateStopsInOrder | ShimmeringHelper.cs:364-367 | stop translation keeps every stop, in source order, with its offset and colour |
| Brushes.TranslateMeaning | ShimmeringHelper.cs:338-407 | solid gives a colour brush; linear and radial give gradients with mapping RelativeToBoundingBox to Relative, Absolute to Absolute, others to the default; spread Reflect to Mirror, Repeat to Wrap, Pad and others to the default; stops copied in order; radial copies centre, radii, origin and interpolation space; any other kind gives none |
| Brushes.LinearEndpointsIgnored | ShimmeringHelper.cs:345-370 | the translated linear gradient does not depend on the source's start and end points and runs along the default axis |
| Brushes.CopyStops | ShimmeringHelper.cs:364-367 | the loop produces one compositor stop per source stop, in order, with equal offset and colour |
| Brushes.Translate | ShimmeringHelper.cs:338-407 | the translation of a declarative paint; its meaning is stated by TranslateMeaning and LinearEndpointsIgnored |
| Brushes.TranslateStops | ShimmeringHelper.cs:364-367 | the stop copy; its meaning is stated by TranslateStopsInOrder |
| Brushes.MappingModeFor | ShimmeringHelper.cs:349-354 | the mapping-mode switch with its fall-through to the current value; stated in TranslateMeaning |
| Brushes.ExtendModeFor | ShimmeringHelper.cs:356-362 | the spread-method switch with its fall-through to the current value; stated in TranslateMeaning |
| Brushes.GetCompositionBrush | ShimmeringHelper.cs:338-407 | the built brush equals the translation of the source paint |
| Elements.BaseColorPick | ShimmeringHelper.cs:312-323 | the derived colour's base is the base paint's colour when the element has a base paint property holding a solid colour brush, dark grey otherwise |
| Elements.ColorSourceKinds | ShimmeringHelper.cs:585-594 | controls follow Background, shapes Fill, text blocks Foreground; panels and other elements have no base paint property |
| Elements.ColorSourceProperty | ShimmeringHelper.cs:585-594 | the base paint property of each kind; stated by ColorSourceKinds |
| Elements.BaseColor | ShimmeringHelper.cs:312-320 | the colour the derived band starts from; stated by BaseColorPick |
| Elements.ClipRadius | ShimmeringHelper.cs:290-295 | the corner radii of controls and grids, none otherwise; stated by ClipApplicability |
| Elements.ClipAttempted | ShimmeringHelper.cs:115 | the element is neither a shape nor text; stated by ClipApplicability |
| Elements.ClipApplicability | ShimmeringHelper.cs:288-305 | a clip is attempted and applied exactly for controls and grids; never for shapes, text or generic elements |
| Elements.ClipFor | ShimmeringHelper.cs:288-305 | with corner radii the clip becomes the rounded rectangle of the current size; without them it is left as it was |
| Elements.MaskFor | ShimmeringHelper.cs:121-139 | shapes and text get their own alpha mask, panels a surface captured from their current children at their current size, anything else no mask |
| Controller.Bind | ShimmeringHelper.cs:30-43 | construction yields a valid state, initialized exactly when the element is already loaded |
| Controller.Fresh | ShimmeringHelper.cs:516-618 | the initial properties: inactive, no colour, no brush, a duration of 1 s, no token and no resources |
| Controller.Valid | ShimmeringHelper.cs:53-197 | the invariant: resources exist exactly while initialized, the overlay shows the sprite exactly while initialized and active, the band moves only then, the duration is in range, tokens and handles were handed out; kept by every operation (ResolveKeeps, UpdateAnimationKeeps and each operation's own ensures) |
| Controller.StartAnimation | ShimmeringHelper.cs:276-280 | the overlay shows the sprite; the band animates if the mask brush has a source; nothing else changes |
| Controller.StopAnimation | ShimmeringHelper.cs:282-286 | the overlay is emptied; a band with a source stops animating; nothing else changes |
| Controller.SetSource | ShimmeringHelper.cs:307-310 | assigns a new, not yet animating source to the mask brush; stated by ExplicitSource, DerivedSource and ColorChangeStopsMotion |
| Controller.RemoveColorListeners | ShimmeringHelper.cs:599-605 | the stored token is unregistered if present and is kept; nothing else changes |
| Controller.AddColorListeners | ShimmeringHelper.cs:607-613 | with a base paint property, one fresh registration is added and its token replaces the stored one; otherwise nothing changes |
| Controller.ResolveSource | ShimmeringHelper.cs:73-99 | resolution changes only the mask brush's source and the listener state, keeps the mask brush's handle and mask, and never adds or removes the mask brush |
| Controller.DerivedColor | ShimmeringHelper.cs:97 | the brightened base colour; its base is stated by BaseColorPick |
| Controller.ResolveFaults | ShimmeringHelper.cs:75-78 | resolution passes the compositor guard but finds no mask brush (the dereference at line 309); stated by ChangeAfterUnloadFaults and NothingWithoutCompositor |
| Controller.SetColorFaults | ShimmeringHelper.cs:556-562 | the Color setter throws exactly when the value is new, a compositor is held and the mask brush is gone (the dereference at line 309); stated by ChangeAfterUnloadFaults and NothingWithoutCompositor |
| Controller.SetBrushFaults | ShimmeringHelper.cs:574-580 | the Brush setter throws exactly when the reference is new, a compositor is held and the mask brush is gone (the dereference at line 309); stated by ChangeAfterUnloadFaults, NothingWithoutCompositor and BrushComparedByReference |
| Controller.ResolveExplicit | ShimmeringHelper.cs:80-94 | with a mask brush, the given source is installed (not animating) and the stored token's registration is dropped while the token and the token counter are kept; without a mask brush nothing changes |
| Controller.ResolveDerived | ShimmeringHelper.cs:96-97 | the derived path changes only the mask brush's source and the listener state; every new registration and token is fresh |
| Controller.ResolveKeeps | ShimmeringHelper.cs:73-99 | resolution keeps the invariant |
| Controller.CreateMaskBrush | ShimmeringHelper.cs:121-139 | the mask brush with the kind's mask and no source, under fresh handles; stated by Build and InitBuilds |
| Controller.CreateMaskVisual | ShimmeringHelper.cs:110-119 | the sprite painted with the mask brush, with the clip for non-shape, non-text elements; stated by Build and InitBuilds |
| Controller.CreateAnimation | ShimmeringHelper.cs:101-108 | the looping animation of the configured duration; stated by Build and InitBuilds |
| Controller.Build | ShimmeringHelper.cs:54-67 | before sizing, initialization has acquired the compositor and created the mask brush, the sprite painted with it and a looping animation of the configured duration with no key frames, all with fresh handles, nothing animating |
| Controller.RefreshMaskOrClip | ShimmeringHelper.cs:233-241 | the rebuild's mask or clip step keeps the resources' identities and the band's source and motion, and touches only the mask brush, the sprite and the handle counter |
| Controller.SizeAndKeyFrames | ShimmeringHelper.cs:243-248 | the sprite takes the element's size and the key frames at progress 0 and 1 are minus half and twice the width; only the sprite and the animation change |
| Controller.UpdateAnimation | ShimmeringHelper.cs:223-254 | a rebuild keeps the resources' identities and the band's source and adds key frames at progress 0 and 1 |
| Controller.UpdateAnimationKeeps | ShimmeringHelper.cs:223-254 | a rebuild of fully built resources yields a state satisfying the invariant |
| Controller.Init | ShimmeringHelper.cs:54-71 | initialization yields a valid initialized state |
| Controller.Dispose | ShimmeringHelper.cs:175-197 | disposal yields a valid uninitialized state |
| Controller.CheckResourcesInitialization | ShimmeringHelper.cs:207-221 | the result is true exactly when the resources already existed or the element is loaded, and then they exist |
| Controller.SizeChanged | ShimmeringHelper.cs:199-205 | a size change keeps the invariant |
| Controller.SetActive | ShimmeringHelper.cs:517-543 | the IsActive setter keeps the invariant |
| Controller.SetColor | ShimmeringHelper.cs:551-564 | the Color setter keeps the invariant |
| Controller.SetBrush | ShimmeringHelper.cs:569-582 | the Brush setter keeps the invariant; its no-op case is a reference comparison (meaning in BrushComparedByReference) |
| Controller.DurationAccepted | ShimmeringHelper.cs:625 | the duration guard; stated by DurationRange |
| Controller.SetDuration | ShimmeringHelper.cs:619-637 | the Duration setter keeps the invariant |
| Controller.ColorSourceUpdated | ShimmeringHelper.cs:615 | a base paint notification keeps the invariant |
| Properties.DurationRange | ShimmeringHelper.cs:625 | a duration is accepted exactly when it differs from the current one and lies from 1 ms to 24 days inclusive |
| Properties.DurationSetter | ShimmeringHelper.cs:619-637 | the setter is a no-op exactly when the value is current, below 1 ms or above 24 days; otherwise only the stored duration and the live animation's duration change, with no restart |
| Properties.SourcePriority | ShimmeringHelper.cs:73-99 | the installed source is the brush's translation, else the colour's band, else the derived colour's band; brush or colour unregisters the token and keeps it; the derived path registers exactly one new listener when the element has a base paint property; nothing else changes |
| Properties.ExplicitSource | ShimmeringHelper.cs:80-94 | with a mask brush, an explicit source is installed not animating, the mask, sprite, animation and overlay are kept, and the stored token is unregistered and kept |
| Properties.DerivedSource | ShimmeringHelper.cs:96-97 | with a mask brush, the derived band is installed from the base colour read before registration; exactly one fresh listener is registered, and its token stored, when the element has a base paint property, none otherwise |
| Properties.BrushOverridesColor | ShimmeringHelper.cs:80-86 | with a brush set, the colour has no influence on the resolved state |
| Properties.NothingWithoutCompositor | ShimmeringHelper.cs:75-78 | before a compositor exists, resolution does nothing and cannot fault, and the colour and brush setters only store the value |
| Properties.BrushComparedByReference | ShimmeringHelper.cs:574-580 | assigning the brush object already held, whatever its contents, leaves the state unchanged and cannot fault; any other reference or null is stored |
| Properties.SettersIgnoreEqualValue | ShimmeringHelper.cs:515-637 | each of the four setters leaves the state unchanged on the current value |
| Properties.ColorThenBrush | ShimmeringHelper.cs:551-582 | a colour followed by a linear gradient brush leaves the brush's translated gradient as the source |
| Properties.LifecycleIdempotent | ShimmeringHelper.cs:54-197 | initializing twice equals initializing once; disposing twice equals disposing once; each is a no-op in the other's end state |
| Properties.InitBuilds | ShimmeringHelper.cs:54-71 | initialization installs the intended source, the kind's mask, the clip, a sprite of the element's size painted with the mask brush, a looping animation of the configured duration with key frames (0, -w/2) and (1, 2w), and shows and animates exactly when active; the properties are kept |
| Properties.DisposeReleases | ShimmeringHelper.cs:175-197 | disposal empties the overlay slot and drops the sprite, the mask brush and the animation; the properties, the compositor, the token and all registrations stay |
| Properties.ReloadCreatesNewSprite | ShimmeringHelper.cs:110-123 | a reload after an unload creates a new sprite and a new mask brush |
| Properties.ActivateBeforeLoad | ShimmeringHelper.cs:527-532 | without resources, the IsActive setter only stores the flag: no overlay, no animation |
| Properties.ActivateWhenLoaded | ShimmeringHelper.cs:534-541 | with resources, activating shows the sprite and starts the band when it has a source; deactivating empties the slot and stops it |
| Properties.UpdateAnimationMeaning | ShimmeringHelper.cs:223-254 | a rebuild sizes the sprite to (w, h), sets exactly the key frames (0, -w/2) and (1, 2w), keeps the duration, and leaves overlay and motion on exactly when active |
| Properties.KeyFramesIgnoreHeight | ShimmeringHelper.cs:229-248 | the key frames do not depend on the element's height |
| Properties.RebuildClipAndMask | ShimmeringHelper.cs:233-241 | a rebuild recaptures a panel's mask from its current children and size and keeps its clip; it rebuilds a control's clip for the current size; it leaves shapes, text and generic elements alone |
| Properties.SizeChangeRules | ShimmeringHelper.cs:199-221 | a size change without resources on an unloaded element does nothing; on a loaded one it initializes and rebuilds again; with resources it rebuilds |
| Properties.ChangeAfterUnloadFaults | ShimmeringHelper.cs:73-78 | after an unload, a new colour or brush, or a base paint notification, dereferences the disposed mask brush |
| Properties.ListenersAccumulate | ShimmeringHelper.cs:96 | in derived-colour mode each base paint notification adds one live registration and keeps all earlier ones |
| Properties.Callbacks | ShimmeringHelper.cs:611-615 | n callbacks of the registered listener in a row keep the invariant |
| Properties.CallbacksAccumulate | ShimmeringHelper.cs:96 | in derived-colour mode n callbacks add exactly n live registrations and keep all earlier ones |
| Properties.ListenersDouble | ShimmeringHelper.cs:96 | after as many derived-mode callbacks as there are live registrations, their number has doubled |
| Properties.ColorChangeStopsMotion | ShimmeringHelper.cs:307-310 | a colour change while active keeps the sprite shown but leaves the band not animating |
| Xaml.SameReference | ShimmeringHelper.cs:574 | reference equality of nullable brushes; stated by BrushComparedByReference |
| Shimmering.Element.SetChildVisual | ShimmeringHelper.cs:278 | the host's overlay slot takes the given sprite handle or is emptied, and nothing else of the element changes |
| Shimmering.Element.RegisterPropertyChangedCallback | ShimmeringHelper.cs:611 | the host hands out its next token, advances the counter and adds the token to the live registrations |
| Shimmering.Element.UnregisterPropertyChangedCallback | ShimmeringHelper.cs:603 | the host removes the token from the live registrations |
| Shimmering.ShimmeringHelper.constructor | ShimmeringHelper.cs:30-43 | binds to the element and initializes at once when it is loaded |
| Shimmering.ShimmeringHelper.OnLoaded | ShimmeringHelper.cs:165-168 | performs initialization |
| Shimmering.ShimmeringHelper.OnUnloaded | ShimmeringHelper.cs:170-173 | performs disposal |
| Shimmering.ShimmeringHelper.InitializeResources | ShimmeringHelper.cs:54-71 | performs exactly Init, setting the flag after building and sizing everything, and keeps the invariant |
| Shimmering.ShimmeringHelper.BuildResources | ShimmeringHelper.cs:61-66 | performs exactly the building part of initialization |
| Shimmering.ShimmeringHelper.UpdateMaskBrush | ShimmeringHelper.cs:121-139 | creates the mask brush with the kind's mask |
| Shimmering.ShimmeringHelper.UpdateMaskVisual | ShimmeringHelper.cs:110-119 | creates the sprite painted with the mask brush, clipped for non-shape, non-text elements with corner radii |
| Shimmering.ShimmeringHelper.HandleCornerRadiusClip | ShimmeringHelper.cs:288-305 | returns the sprite with the rounded-rectangle clip when the element has corner radii, unchanged otherwise |
| Shimmering.ShimmeringHelper.CreateAnimation | ShimmeringHelper.cs:101-108 | creates the looping animation with the configured duration |
| Shimmering.ShimmeringHelper.DisposeResources | ShimmeringHelper.cs:175-197 | performs exactly Dispose and keeps the invariant |
| Shimmering.ShimmeringHelper.OnSizeChanged | ShimmeringHelper.cs:199-205 | performs exactly SizeChanged and keeps the invariant |
| Shimmering.ShimmeringHelper.CheckResourcesInitialization | ShimmeringHelper.cs:207-221 | initializes a loaded element without resources and reports whether resources exist |
| Shimmering.ShimmeringHelper.UpdateAnimation | ShimmeringHelper.cs:223-254 | performs exactly the rebuild step |
| Shimmering.ShimmeringHelper.RefreshMaskOrClip | ShimmeringHelper.cs:233-241 | performs exactly the mask or clip step of a rebuild |
| Shimmering.ShimmeringHelper.SizeAndKeyFrames | ShimmeringHelper.cs:243-248 | performs exactly the sizing and key-frame step of a rebuild |
| Shimmering.ShimmeringHelper.StartAnimation | ShimmeringHelper.cs:276-280 | shows the sprite and starts the band |
| Shimmering.ShimmeringHelper.StopAnimation | ShimmeringHelper.cs:282-286 | stops the band and empties the overlay slot |
| Shimmering.ShimmeringHelper.UpdateMaskBrushSource | ShimmeringHelper.cs:307-310 | assigns the source, or reports the null dereference when the mask brush is gone |
| Shimmering.ShimmeringHelper.RemoveColorListeners | ShimmeringHelper.cs:599-605 | unregisters the stored token, keeping it |
| Shimmering.ShimmeringHelper.AddColorListeners | ShimmeringHelper.cs:607-613 | registers a listener and overwrites the stored token |
| Shimmering.ShimmeringHelper.CalculateAlternativeColor | ShimmeringHelper.cs:312-323 | the brightened base colour of the element |
| Shimmering.ShimmeringHelper.CheckMaskBrushSource | ShimmeringHelper.cs:73-99 | performs exactly ResolveSource and reports a fault exactly when a compositor exists but the mask brush does not |
| Shimmering.ShimmeringHelper.OnColorSourceUpdated | ShimmeringHelper.cs:615 | re-resolves the source, keeps the invariant and reports the same faults |
| Shimmering.ShimmeringHelper.SetIsActive | ShimmeringHelper.cs:517-543 | performs exactly SetActive and keeps the invariant |
| Shimmering.ShimmeringHelper.SetColor | ShimmeringHelper.cs:551-564 | performs exactly SetColor and faults exactly when the value is new and the resources were disposed |
| Shimmering.ShimmeringHelper.SetBrush | ShimmeringHelper.cs:569-582 | performs exactly SetBrush, comparing references, and faults exactly when the reference is new and the resources were disposed |
| Shimmering.ShimmeringHelper.SetDuration | ShimmeringHelper.cs:619-637 | performs exactly SetDuration and keeps the invariant |

## Left out

- HSL brightening (`GetBrighterColor`, `GetColorFromHSL`, `nFunk`): it is floating point over `System.Drawing` colour queries, and its out-of-range double-to-byte casts give unspecified values. It is an opaque function parameter, `brighten`. Only its input, the base colour pick, is modelled.
- `GetColorFromHSL2` and `GetColorComponent`: dead code.
- Alpha masks, redirect visuals, visual surfaces and `CreateCustomMaskBrushForPanel`: these are compositor calls. They are mask tokens. A panel's token records the child count and size at capture time.
- `CanvasPathBuilder`, `CompositionPath` and `CreateGeometricClip`: these are foreign calls. The clip is the recorded figure.
- The finalizer: it runs at a time set by the garbage collector.
- The NaN and infinity fallback of `GetElementWidth` and `GetElementHeight`, and the narrowing to single precision: this is float behaviour. Sizes, offsets and radii are reals taken as given.
- Running the animation on the compositor thread: it is concurrency outside this code. Only whether the band's offset animation is running is modelled.
- The easing function object: it has no observable effect here.
- Native release by `Dispose()` calls: released objects are simply dropped from their slots. A replaced mask source is never disposed, and the model does not track that.
- The 64-bit range of `TimeSpan` ticks: durations are unbounded integers. Only values from 1 ms to 24 days are ever stored.
- Changes to a brush object's contents after it is assigned: the model treats a brush's contents as fixed once assigned. The code keeps the reference and reads the brush's current contents at each later resolution (on reload, on a colour change, on a base paint notification). Both compare brushes by reference in the setter.
- The diagnostic message for an unsupported brush: it is logging only.
- The overlay slot is assumed to belong to the controller alone: a controller is bound to an element whose overlay slot is empty. The code binds to any element, and its first initialization empties an occupied slot even when inactive (the stop at the start of the rebuild).
- Subscribing the load, size and unload handlers: the handler methods are the entry points.
- `AttachedProperties/ShimmeringExtensions.cs` and `Behavior/ShimmeringBehavior.cs`: they only forward property values to the controller through the dependency property system, which is a library outside this model. `ShimmeringBehavior.OnAttached` forwards `IsActive`, `Color` and `Duration` but not `Brush` (Behavior/ShimmeringBehavior.cs:16-21).
