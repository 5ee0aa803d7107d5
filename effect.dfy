/** The ShapeCornersEffect object: its configuration fields, the mask slots, and the
    methods that re-read the configuration, regenerate the masks, classify a window and
    paint it. GPU calls appear only as the events of the trace PaintWindow returns. */
module Effect {
  import opened Wrappers
  import opened Text
  import opened Geometry
  import opened Config
  import opened Masks
  import opened Classifier
  import opened Paint

  /** The compiled corner shader; `valid` is what GLShader::isValid() reports. */
  datatype Shader = Shader(valid: bool)

  /** The WindowPaintData handed to paintWindow; its quad list is what the host paints. */
  class PaintData {
    var quads: seq<Quad>

    constructor (quads: seq<Quad>)
      ensures this.quads == quads
    {
      this.quads := quads;
    }
  }

  class ShapeCornersEffect {
    const tex: array<Option<Mask>>   // m_tex: one mask slot per corner, None when null
    var size: seq<int>               // m_size: the radius of each corner
    var corner: seq<Size>            // m_corner: the patch size of each corner
    var cornerType: CornerType       // m_type
    var squareAtEdge: bool
    var filterShadow: bool
    var whitelist: seq<string>
    var blacklist: seq<string>
    var shader: Option<Shader>       // m_shader, None when null

    /** What readConfig keeps: four slots, non-negative radii, and at least four radii
        whenever a style is set (so the radius of every corner can be looked up). */
    ghost predicate ConfigValid()
      reads this
    {
      tex.Length == NTex && NonNegative(size) && (cornerType != Normal ==> |size| >= NTex)
    }

    /** What reconfigure adds: one square patch per radius and the masks of the
        current configuration in the slots. */
    ghost predicate Valid()
      reads this, tex
    {
      ConfigValid() &&
      |corner| == |size| && (forall i :: 0 <= i < |size| ==> corner[i] == Square(size[i])) &&
      Generated(tex[..], cornerType, size)
    }

    predicate ShaderValid()
      reads this
    {
      shader.Some? && shader.value.valid
    }

    /** The effect starts unstyled with both flags off and null pointers, reads its
        configuration, then installs the shader (None when the shader file was not found). */
    constructor (e: Entries, shaderFile: Option<Shader>)
      ensures Valid() && fresh(tex)
      ensures cornerType == NextType(Normal, e) && size == NextSize([], e)
      ensures squareAtEdge == e.squareAtScreenEdge && filterShadow == e.filterShadow
      ensures whitelist == e.whitelist && blacklist == e.blacklist
      ensures shader == shaderFile
    {
      tex := new Option<Mask>[NTex](_ => None);
      size := [];
      corner := [];
      cornerType := Normal;
      squareAtEdge := false;
      filterShadow := false;
      whitelist := [];
      blacklist := [];
      shader := None;
      new;
      Reconfigure(e);
      shader := shaderFile;
    }

    /** readConfig: copies the flags and lists, resolves the style, clamps the radii and,
        unless they are all zero, expands and stores them; all zero switches the style off. */
    method ReadConfig(e: Entries)
      requires ConfigValid()
      modifies this
      ensures ConfigValid()
      ensures cornerType == NextType(old(cornerType), e)
      ensures size == NextSize(old(size), e)
      ensures squareAtEdge == e.squareAtScreenEdge && filterShadow == e.filterShadow
      ensures whitelist == e.whitelist && blacklist == e.blacklist
      ensures corner == old(corner) && shader == old(shader)
    {
      squareAtEdge := e.squareAtScreenEdge;
      filterShadow := e.filterShadow;
      whitelist := e.whitelist;
      blacklist := e.blacklist;

      var style := ResolveStyle(cornerType, e.typeText);
      cornerType := style;

      var cornerSizes, isAllZero := ClampRadii(e.radius);
      if isAllZero {
        cornerType := Normal;
      } else {
        cornerSizes := ExpandRadii(cornerSizes);
        size := cornerSizes;
      }
      ReadConfigInvariant(old(cornerType), old(size), e);
    }

    /** genMasks: empties every slot, then, unless the style is Normal, fills each slot
        with the mask of its corner. */
    method GenMasks()
      requires ConfigValid()
      modifies tex
      ensures Generated(tex[..], cornerType, size)
      ensures SlotsOf(tex[..]) == GenMasksNulling(SlotsOf(old(tex[..])), cornerType, size).slots
    {
      var i := 0;
      while i < NTex
        invariant 0 <= i <= NTex
        invariant forall j :: 0 <= j < i ==> tex[j] == None
      {
        if tex[i].Some? {
          tex[i] := None;
        }
        i := i + 1;
      }

      if cornerType == Normal {
        GeneratedIsNulling(tex[..], SlotsOf(old(tex[..])), cornerType, size);
        return;
      }

      i := 0;
      while i < NTex
        invariant 0 <= i <= NTex
        invariant forall j :: 0 <= j < i ==> tex[j] == Some(MaskFor(cornerType, size[j], j))
      {
        var s := size[i];
        tex[i] := Some(MaskFor(cornerType, s, i));
        i := i + 1;
      }
      GeneratedIsNulling(tex[..], SlotsOf(old(tex[..])), cornerType, size);
    }

    /** reconfigure: readConfig, then one square patch per radius, then genMasks. */
    method Reconfigure(e: Entries)
      requires ConfigValid()
      modifies this, tex
      ensures Valid()
      ensures cornerType == NextType(old(cornerType), e) && size == NextSize(old(size), e)
      ensures |corner| == |size| && forall i :: 0 <= i < |size| ==> corner[i] == Square(size[i])
      ensures squareAtEdge == e.squareAtScreenEdge && filterShadow == e.filterShadow
      ensures whitelist == e.whitelist && blacklist == e.blacklist
      ensures shader == old(shader)
    {
      ReadConfig(e);
      ghost var read := (cornerType, size, squareAtEdge, filterShadow, whitelist, blacklist, shader);
      corner := [];
      var i := 0;
      while i < |size|
        invariant (cornerType, size, squareAtEdge, filterShadow, whitelist, blacklist, shader) == read
        invariant 0 <= i <= |size|
        invariant |corner| == i && forall j :: 0 <= j < i ==> corner[j] == Square(size[j])
      {
        corner := corner + [Square(size[i])];
        i := i + 1;
      }
      GenMasks();
    }

    /** isValid: the ordered checks with early returns agree with the eligibility
        formula. A null shader counts as not valid. */
    method IsValid(w: Window) returns (ok: bool)
      ensures ok == Eligible(ShaderValid(), whitelist, blacklist, w)
    {
      if !ShaderValid() {
        return false;
      }
      var className := w.windowClass;

      var i := 0;
      while i < |whitelist|
        invariant 0 <= i <= |whitelist|
        invariant forall j :: 0 <= j < i ==> !ContainsCI(className, whitelist[j])
      {
        var found := ContainsIgnoringCase(className, whitelist[i]);
        if found {
          return true;
        }
        i := i + 1;
      }

      i := 0;
      while i < |blacklist|
        invariant 0 <= i <= |blacklist|
        invariant forall j :: 0 <= j < i ==> !ContainsCI(className, blacklist[j])
      {
        var found := ContainsIgnoringCase(className, blacklist[i]);
        if found {
          return false;
        }
        i := i + 1;
      }

      var isPlasma := ContainsIgnoringCase(className, "plasma");
      if isPlasma && !w.isNormalWindow && !w.isDialog && !w.isModal {
        return false;
      }
      if !w.isPaintingEnabled || w.isDesktop || w.isPopupMenu {
        return false;
      }
      return true;
    }

    /** The capture loop of paintWindow: the background under each corner patch is
        copied into that corner's scratch texture, corner by corner. */
    method CaptureCorners(rect: seq<Rect>, screenHeight: int) returns (trace: seq<Event>)
      requires |rect| == NTex
      ensures trace == Captures(rect, screenHeight, NTex)
    {
      trace := [];
      var i := 0;
      while i < NTex
        invariant 0 <= i <= NTex
        invariant trace == Captures(rect, screenHeight, i)
      {
        trace := trace + [CaptureOf(i, rect[i], screenHeight)];
        i := i + 1;
      }
    }

    /** The blend loop of paintWindow: every corner not exempt is drawn through the mask in
        its slot; exempt corners are skipped. */
    method BlendCorners(rect: seq<Rect>, cornerConditions: seq<bool>) returns (trace: seq<Event>)
      requires Valid() && cornerType != Normal
      requires |rect| == NTex && |cornerConditions| == NTex
      ensures trace == Blends(rect, MasksFor(cornerType, size), cornerConditions, NTex)
    {
      ghost var masks := MasksFor(cornerType, size);
      assert forall j :: 0 <= j < NTex ==> tex[j] == Some(masks[j]);
      trace := [];
      var i := 0;
      while i < NTex
        invariant 0 <= i <= NTex
        invariant trace == Blends(rect, masks, cornerConditions, i)
      {
        if !cornerConditions[i] {
          trace := trace + [Blend(i, rect[i], tex[i].value)];
        }
        assert trace == Blends(rect, masks, cornerConditions, i + 1);
        i := i + 1;
      }
    }

    /** paintWindow on `screen` (the virtual screen geometry): filters shadow quads when
        asked; a window that is not eligible, or an unstyled effect, gets only the default
        paint and keeps the filtered list; otherwise the four backgrounds are captured,
        the window is painted once, the corners not exempt are blended through their
        masks, and the original quad list is put back. */
    method PaintWindow(w: Window, data: PaintData, screen: Rect) returns (trace: seq<Event>)
      requires Valid()
      modifies data
      ensures var painted := if filterShadow then FilterOut(old(data.quads), ShadowQuad) else old(data.quads);
        if Eligible(ShaderValid(), whitelist, blacklist, w) && cornerType != Normal then
          trace == ShapedTrace(CornerRects(w.geometry, size, corner), MasksFor(cornerType, size),
                               CornerConditions(squareAtEdge, w.geometry, screen), screen.height, painted) &&
          data.quads == old(data.quads)
        else
          trace == [PaintDefault(painted)] && data.quads == painted
    {
      var qds := data.quads;
      if filterShadow {
        data.quads := FilterOut(qds, ShadowQuad);
      }

      var valid := IsValid(w);
      if !valid || cornerType == Normal {
        trace := [PaintDefault(data.quads)];
        return;
      }

      var geo := w.geometry;
      var rect := CornerRects(geo, size, corner);
      var s := screen;
      trace := CaptureCorners(rect, s.height);

      trace := trace + [PaintDefault(data.quads)];

      var cornerConditions := CornerConditions(squareAtEdge, geo, s);
      var blends := BlendCorners(rect, cornerConditions);
      trace := trace + blends;
      data.quads := qds;
    }
  }
}
