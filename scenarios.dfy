/** Whole-effect consequences of the model: the radius expansion on short lists, an
    all-zero radius list turning the effect into a pass-through, and a whitelisted
    Firefox window painted with four rounded corners. */
module Scenarios {
  import opened Wrappers
  import opened Text
  import opened Geometry
  import opened Config
  import opened Masks
  import opened Classifier
  import opened Paint
  import opened Effect

  /** [a] serves all four corners, [a, b] gives the diagonals, and [a, b, c] repeats b at
      the bottom left, whatever the values. */
  lemma ShortListsMirror(a: int, b: int, c: int)
    ensures Expanded([a]) == [a, a, a, a]
    ensures Expanded([a, b]) == [a, b, a, b]
    ensures Expanded([a, b, c]) == [a, b, c, b]
  {
  }

  /** A list of radii none of which is positive switches the style off, whatever the Type
      text says and whatever the style was, and keeps the radii already stored. */
  lemma NonPositiveRadiiSwitchOff(prevType: CornerType, prevSize: seq<int>, e: Entries)
    requires forall i :: 0 <= i < |e.radius| ==> e.radius[i] <= 0
    ensures NextType(prevType, e) == Normal
    ensures NextSize(prevSize, e) == prevSize
  {
  }

  /** A configuration file without any key: style Rounded and four radii 10. */
  lemma DefaultConfiguration(prevType: CornerType, prevSize: seq<int>)
    ensures NextType(prevType, DefaultEntries()) == Rounded
    ensures NextSize(prevSize, DefaultEntries()) == [10, 10, 10, 10]
  {
    var e := DefaultEntries();
    ContainsItselfIgnoringCase("rounded", "rounded");
    assert Clamped(e.radius) == [10, 10, 10, 10];
    assert !AllZero(Clamped(e.radius)) by {
      assert Clamped(e.radius)[0] == 10;
    }
  }

  /** An effect configured with radii [0, 0, 0, 0] paints every window by the default
      paint alone: no capture and no blend. */
  method AllZeroPassThrough(typeText: string, w: Window, quads: seq<Quad>, screen: Rect)
    returns (trace: seq<Event>)
    ensures trace == [PaintDefault(quads)]
  {
    var e := Entries([0, 0, 0, 0], typeText, false, false, [], []);
    var effect := new ShapeCornersEffect(e, Some(Shader(true)));
    var data := new PaintData(quads);
    trace := effect.PaintWindow(w, data, screen);
  }

  /** A whitelist entry "firefox" admits the class "Firefox" although "fire" is
      blacklisted. */
  lemma FirefoxIsEligible(w: Window)
    requires w.windowClass == "Firefox"
    ensures Eligible(true, ["firefox"], ["fire"], w)
  {
    assert Lower("Firefox") == Lower("firefox");
    ContainsItselfIgnoringCase("Firefox", "firefox");
    assert ContainsCI(w.windowClass, ["firefox"][0]);
  }

  /** Radius [12] with Type "rounded" on a fresh effect: style Rounded and four radii 12. */
  lemma FirefoxConfiguration()
    ensures var e := Entries([12], "rounded", false, false, ["firefox"], ["fire"]);
      NextType(Normal, e) == Rounded && NextSize([], e) == [12, 12, 12, 12]
  {
    var e := Entries([12], "rounded", false, false, ["firefox"], ["fire"]);
    ContainsItselfIgnoringCase("rounded", "rounded");
    assert Clamped([12]) == [12];
    assert !AllZero(Clamped(e.radius)) by {
      assert Clamped(e.radius)[0] == 12;
    }
  }

  /** The Firefox window on a fresh effect: four captures, one paint with the window's
      quads, and then all four corners blended through 12-pixel rounded masks. */
  method FirefoxPaint(w: Window, quads: seq<Quad>, screen: Rect) returns (trace: seq<Event>)
    requires w.windowClass == "Firefox"
    ensures |trace| == 2 * NTex + 1 && trace[NTex] == PaintDefault(quads)
    ensures forall j :: 0 <= j < NTex ==> trace[j].Capture? && trace[j].corner == j
    ensures forall j :: NTex < j < |trace| ==>
      trace[j].Blend? && trace[j].corner == j - NTex - 1 &&
      trace[j].mask.style == Rounded && trace[j].mask.side == 12
  {
    var e := Entries([12], "rounded", false, false, ["firefox"], ["fire"]);
    FirefoxConfiguration();
    FirefoxIsEligible(w);
    var effect := new ShapeCornersEffect(e, Some(Shader(true)));
    var data := new PaintData(quads);
    trace := effect.PaintWindow(w, data, screen);
    var masks := MasksFor(Rounded, effect.size);
    var exempt := CornerConditions(false, w.geometry, screen);
    NoExemptionWithoutSquareAtEdge(w.geometry, screen);
    UnexemptShapedTrace(CornerRects(w.geometry, effect.size, effect.corner), masks, exempt, screen.height, quads);
    ShapedTraceOrder(CornerRects(w.geometry, effect.size, effect.corner), masks, exempt, screen.height, quads);
    forall j | NTex < j < |trace|
      ensures trace[j] == Blend(j - NTex - 1, CornerRects(w.geometry, effect.size, effect.corner)[j - NTex - 1], masks[j - NTex - 1])
    {
      var c := j - NTex - 1;
      assert trace[NTex + 1 + c] == Blend(c, CornerRects(w.geometry, effect.size, effect.corner)[c], masks[c]);
    }
  }
}
