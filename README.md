# ShapeCorners effect model

A Dafny model of the ShapeCorners effect for the KWin compositor. The effect rounds or
chisels the four corners of windows. Its core is the `ShapeCornersEffect` class. Here it
is modelled as a Dafny class with the same fields and methods:

- **readConfig** reads the General group of `shapecornersrc`. It sets the style from the
  Type text and clamps negative radii to 0. A list whose radii are all zero switches the
  style to `Normal`. Otherwise a one, two or three entry list is expanded to the four
  corners.
- **reconfigure** runs readConfig, then rebuilds the square corner patches, then
  regenerates the masks.
- **genMasks** empties the four mask slots. Unless the style is `Normal`, it then fills each
  slot with the mask of its corner. A mask is described by its metadata: the style, a
  canvas side of twice the radius, and the crop offset and side for that corner.
- **isValid** decides whether a window is shaped. The checks run in order: the shader,
  the whitelist, the blacklist, the Plasma heuristic, then the paintable, desktop and
  popup tests.
- **paintWindow** optionally filters out shadow quads. An ineligible window or an unstyled
  effect gets only the default paint. Otherwise the effect does four things in order:
  - it captures the background under the four corner patches, reading rows from the
    bottom of the screen;
  - it paints the window once;
  - it blends every corner that is not exempt at the screen edge through its mask;
  - it puts the original quad list back.

The GPU calls are represented by the ordered trace of events that `PaintWindow` returns:
`Capture`, `PaintDefault` and `Blend`. The configuration file, the shader file and the
window are passed in as values: an `Entries` record, an optional `Shader`, and a `Window`
record of the predicates the effect asks of a window.

Files:
- `text.dfy`: case-insensitive substring search.
- `geometry.dfy`: corner indices, rectangles, the capture row and edge exemptions.
- `config.dfy`: the readConfig steps and their specification.
- `masks.dfy`: mask metadata and the mask-pointer bookkeeping.
- `classifier.dfy`: the eligibility formula.
- `paint.dfy`: trace events and their properties.
- `effect.dfy`: the class.
- `scenarios.dfy`: whole-effect consequences.

Behaviours of the code worth noting:
- The pass-through branch of paintWindow leaves the filtered quad list in place; it is not
  restored.
- The corner crop is taken where the code takes it. It comes from the right half for the
  right-hand corners and from the lower half for the top corners.
- An empty radius list counts as all zero, so it switches the style off. A list of more
  than four radii is stored unchanged, and only the first four are used.
- For three radii the code copies the top-right radius to the bottom-left corner. The
  comment beside that case says otherwise.

## Model

| member | source | states |
|---|---|---|
| Text.ContainsIgnoringCase | shapecorners.cpp:212 | the scan returns true exactly when the needle occurs, case ignored, at some position of the text |
| Text.ContainsItselfIgnoringCase | shapecorners.cpp:212 | a pattern equal to the class name up to case is found in it |
| Geometry.CornerRects | shapecorners.cpp:247-251 | four patches with the sizes of the corner list; left patches start at the window's left column and top patches at its top row; with square patches the right patches end at the window's right column and the bottom patches at its bottom row |
| Geometry.CornerRectsInsideWindow | shapecorners.cpp:247-251 | a square patch no larger than the window lies inside the window |
| Geometry.CaptureRow | shapecorners.cpp:260-265 | the row read is the patch's bottom row counted from the bottom of the screen, its top row is the patch's top row flipped, and a patch inside the screen is read from inside the framebuffer |
| Geometry.CornerConditions | shapecorners.cpp:279-283 | a corner is exempt exactly when squareAtEdge is set and one of that corner's two window edges lies on the screen boundary |
| Geometry.LeftEdgeExemptsLeftCorners | shapecorners.cpp:280-283 | a window at the left screen edge keeps both left corners square |
| Geometry.NoExemptionWithoutSquareAtEdge | shapecorners.cpp:279-283 | without squareAtEdge no corner is exempt |
| Config.ResolveStyle | shapecorners.cpp:102-109 | "rounded" in any case gives Rounded even when "chiseled" is also present; otherwise "chiseled" gives Chiseled; otherwise the previous style is kept, so Normal results only from Normal |
| Config.ClampRadii | shapecorners.cpp:111-117 | the loop replaces exactly the negative radii by 0, leaves the rest, and reports whether all are 0 |
| Config.ExpandRadii | shapecorners.cpp:125-139 | the appending switch produces the mirrored expansion of the list |
| Config.ExpandedMirrors | shapecorners.cpp:125-141 | one radius fills four corners; two give equal diagonals; three copy the top right to the bottom left; the given radii stay in front; 0 or 4+ radii are kept; no new value appears |
| Config.ReadConfigInvariant | shapecorners.cpp:111-142 | after readConfig every radius is non-negative, a style other than Normal comes with at least four radii, and an all-zero or empty list gives Normal and keeps the previous radii |
| Config.ReadConfigIdempotent | shapecorners.cpp:86-143 | reading the same configuration again changes neither style nor radii |
| Config.InertUntilStyleNamed | shapecorners.h:58 | starting from Normal, Type text naming neither style leaves the effect unstyled |
| Masks.MaskFor | shapecorners.cpp:154-186 | the mask of corner i has side equal to the radius on a canvas of twice the radius; its crop is taken from the right half for TopRight and BottomRight and from the lower half for TopLeft and TopRight; it lies inside the canvas |
| Masks.QuadrantsDistinct | shapecorners.cpp:183-186 | for a positive radius, the four corners crop four different quadrants |
| Masks.MasksFor | shapecorners.cpp:154-187 | one mask per corner |
| Masks.DeleteAllAsWritten | shapecorners.cpp:147-149 | every non-null pointer is deleted but keeps its value; a pointer already deleted is deleted again |
| Masks.GenMasksAsWritten | shapecorners.cpp:145-187 | genMasks as written: for Normal the slots are the deleted but unreset pointers, otherwise four live masks; it deletes a mask twice exactly when a slot already dangled |
| Masks.DestructorDeletesTwice | shapecorners.cpp:75-83 | the destructor's delete loop deletes a mask a second time exactly when some slot dangles |
| Masks.DanglingMasksDeletedTwice | shapecorners.cpp:145-152 | a Rounded configuration followed by an all-zero one leaves four dangling pointers, which the destructor or the next genMasks deletes a second time |
| Masks.GenMasksNulling | shapecorners.cpp:145-188 | regeneration that resets deleted pointers leaves four slots and no dangling pointer, and deletes twice only what was already dangling |
| Masks.NullingNeverDeletesTwice | shapecorners.cpp:75-83 | with resetting, no series of reconfigurations and no later destruction deletes a mask twice |
| Masks.GeneratedIsNulling | shapecorners.cpp:145-188 | the slots the effect's genMasks leaves are exactly the corrected regeneration's result |
| Classifier.WhitelistOverridesBlacklist | shapecorners.cpp:210-220 | a whitelist match makes a window eligible even when a blacklist entry also matches |
| Classifier.PlasmaSurfaceExcluded | shapecorners.cpp:222-223 | a "plasma" class that is not normal, dialog or modal and is not whitelisted is not eligible |
| Paint.FilterOut | shapecorners.cpp:235-236 | the filtered list holds exactly the quads of other kinds, each as often as in the original and none of the filtered kind; it is no longer than the original, and is the original when it has no quad of that kind |
| Paint.Captures | shapecorners.cpp:256-267 | one capture per corner in corner order, each of that corner's patch at its flipped row |
| Paint.Blends | shapecorners.cpp:285-304 | only corners that are not exempt are blended, in strictly increasing corner order, each onto its own patch through its own mask |
| Paint.BlendsCoverNonExempt | shapecorners.cpp:285-288 | every corner that is not exempt is blended |
| Paint.NoneExemptBlendsAll | shapecorners.cpp:285-304 | with no exemption, the blends are the four corners in order |
| Paint.UnexemptShapedTrace | shapecorners.cpp:256-304 | with no exemption, a shaped paint is four captures, the paint, then the four blends |
| Paint.PaintedExactlyOnce | shapecorners.cpp:256-270 | a shaped paint paints the window exactly once, with the quads it was given, and no capture follows that paint |
| Paint.ShapedTraceOrder | shapecorners.cpp:256-304 | the four captures come first in corner order, the paint is fifth, only blends follow, and a corner is blended exactly when it is not exempt |
| Paint.BlendsFitMasks | shapecorners.cpp:247-300 | with square patches of non-negative radii, every blend draws its corner's patch, which is square and exactly as large as the mask |
| Effect.ShapeCornersEffect.constructor | shapecorners.cpp:39-73 | the effect starts from Normal with null slots and runs reconfigure, so it ends consistent with the configuration read; the shader is the one loaded, null when the file is missing |
| Effect.ShapeCornersEffect.ReadConfig | shapecorners.cpp:86-143 | flags and lists are copied; style and radii become the resolved style and the sanitised, expanded radii; an all-zero list gives Normal and keeps the radii; the invariant is kept |
| Effect.ShapeCornersEffect.GenMasks | shapecorners.cpp:145-188 | all slots are null for Normal; otherwise each slot holds the mask of its corner; the result equals regeneration with reset pointers |
| Effect.ShapeCornersEffect.Reconfigure | shapecorners.cpp:190-201 | after reconfigure each corner patch is the square of its radius, with one patch per radius, and the slots hold the masks of the new configuration |
| Effect.ShapeCornersEffect.IsValid | shapecorners.cpp:203-229 | the ordered early returns give exactly the eligibility formula: a valid shader, and then a whitelist match, or else no blacklist match, no Plasma exclusion and a paintable, non-desktop, non-popup window |
| Effect.ShapeCornersEffect.CaptureCorners | shapecorners.cpp:253-267 | the loop captures the four corners in order |
| Effect.ShapeCornersEffect.BlendCorners | shapecorners.cpp:285-304 | the loop blends the corners that are not exempt through the masks in their slots |
| Effect.ShapeCornersEffect.PaintWindow | shapecorners.cpp:231-309 | an eligible window with a style gets captures, one paint with the possibly filtered quads and the blends, and its quad list is restored; any other window gets the one default paint and keeps the filtered list |
| Scenarios.ShortListsMirror | shapecorners.cpp:125-141 | [a] becomes [a,a,a,a], [a,b] becomes [a,b,a,b] and [a,b,c] becomes [a,b,c,b] |
| Scenarios.NonPositiveRadiiSwitchOff | shapecorners.cpp:111-122 | radii none of which is positive force Normal whatever the Type text, and keep the previous radii |
| Scenarios.DefaultConfiguration | shapecorners.cpp:92-100 | a configuration without any key gives style Rounded and radii [10,10,10,10] from any previous state |
| Scenarios.AllZeroPassThrough | shapecorners.cpp:239-243 | with radii [0,0,0,0] every window gets the default paint alone |
| Scenarios.FirefoxIsEligible | shapecorners.cpp:210-214 | whitelist ["firefox"] admits class "Firefox" though "fire" is blacklisted |
| Scenarios.FirefoxConfiguration | shapecorners.cpp:92-141 | radius [12] with Type "rounded" gives Rounded and four radii 12 |
| Scenarios.FirefoxPaint | shapecorners.cpp:231-309 | the Firefox window's trace is the four corners captured in order, then one paint with its quads, then all four corners blended in order through 12-pixel rounded masks |

## Left out

- The GPU work is represented only by trace events. This covers texture creation and binding, `glCopyTexSubImage2D`, blend state, shader uniforms and the orthographic projection.
- Mask pixels are not modelled, because QPainter's antialiased ellipse and polygon rasterisation is floating-point library code. A mask is described by its metadata.
- Reading `shapecornersrc` through KConfig is not modelled; its values arrive as an `Entries` record, and `DefaultEntries` gives the defaults for absent keys.
- Shader file lookup and GLSL version selection are not modelled. The constructor takes the loaded shader as an optional value.
- The plugin factory, `supported`, `enabledByDefault` and `requestedEffectChainPosition` are host plumbing and are not modelled.
- The constructor's `deleteLater` call when the shader file is missing is not modelled. The model keeps the effect with a null shader instead.
- The `mask` and `region` arguments of paintWindow are passed through to the host unchanged, so they are not modelled.
- `m_rSize` and `m_updateRegion` are declared but never used, so they are not modelled.
- Masks.MaskFor: radii and coordinates are unbounded integers. The code's 32-bit `int` arithmetic is not modelled, and that arithmetic overflows for huge values: `size * 2` for the canvas, `m_size.at(i) - 1` for the patch offsets, `geo.right() + 1` for the edge flags, and the capture row. For a radius of 2^30 or more, the promise that the crop lies inside the canvas holds only in the model.
- Case folding is ASCII only. Qt's Unicode case folding is not modelled.
- Effect.ShapeCornersEffect.IsValid: a null shader reads as not valid. The code dereferences the null pointer when the shader file was missing, which is undefined behaviour.
- Effect.ShapeCornersEffect.GenMasks: the effect's slots reset a deleted mask to null. The code as written leaves the pointer dangling; see Findings.

## Findings

| source | as written | input that shows it | evidently intended | confidence | as-written member | corrected member |
|---|---|---|---|---|---|---|
| shapecorners.cpp:147-152 | genMasks deletes each non-null mask without resetting the pointer, then returns early when the style is Normal | a configuration with Radius [10,10,10,10] and Type "rounded", then one with Radius [0,0,0,0]: the four pointers dangle, and the destructor (shapecorners.cpp:79-83) or the next genMasks deletes them again | every deleted mask pointer is reset to null, so no mask is ever deleted twice | not executed | Masks.DanglingMasksDeletedTwice | Masks.NullingNeverDeletesTwice |
