/** One paint call of the effect, seen as the ordered list of the outside operations it
    performs: the background captures into scratch textures, the host's default paint of
    the window, and the masked blends of the corner patches. */
module Paint {
  import opened Geometry
  import opened Config
  import opened Masks

  /** The kinds of WindowQuad the effect distinguishes; only shadow quads are filtered. */
  datatype QuadKind = ContentsQuad | DecorationQuad | ShadowQuad

  datatype Quad = Quad(kind: QuadKind, id: int)

  /** WindowQuadList::filterOut: the quads not of kind `kind`, in their order. */
  function FilterOut(qs: seq<Quad>, kind: QuadKind): (r: seq<Quad>)
    ensures |r| <= |qs|
    ensures forall i :: 0 <= i < |r| ==> r[i].kind != kind
    ensures forall q :: q in r <==> q in qs && q.kind != kind
    ensures (forall i :: 0 <= i < |qs| ==> qs[i].kind != kind) ==> r == qs
    ensures forall q :: multiset(r)[q] == if q.kind == kind then 0 else multiset(qs)[q]
  {
    if qs == [] then []
    else
      assert qs == [qs[0]] + qs[1..];
      assert multiset(qs) == multiset{qs[0]} + multiset(qs[1..]);
      if qs[0].kind == kind then FilterOut(qs[1..], kind)
      else [qs[0]] + FilterOut(qs[1..], kind)
  }

  /** An outside operation of the paint call. Capture copies the framebuffer block with
      lower-left corner (x, row) into the scratch texture of `corner`; PaintDefault is the
      host's window paint with the quad list it was given; Blend draws the scratch texture
      of `corner` through `mask` onto `target`. */
  datatype Event =
    | Capture(corner: nat, x: int, row: int, width: int, height: int)
    | PaintDefault(quads: seq<Quad>)
    | Blend(corner: nat, target: Rect, mask: Mask)

  function CaptureOf(i: nat, r: Rect, screenHeight: int): Event {
    Capture(i, r.x, CaptureRow(screenHeight, r), r.width, r.height)
  }

  /** The captures of the first `n` corners, in corner order. */
  function Captures(rects: seq<Rect>, screenHeight: int, n: nat): (t: seq<Event>)
    requires n <= |rects|
    ensures |t| == n
    ensures forall j :: 0 <= j < n ==> t[j] == CaptureOf(j, rects[j], screenHeight)
  {
    if n == 0 then [] else Captures(rects, screenHeight, n - 1) + [CaptureOf(n - 1, rects[n - 1], screenHeight)]
  }

  /** Corner `c` is blended somewhere in trace `t`. */
  ghost predicate Blended(t: seq<Event>, c: nat) {
    exists j :: 0 <= j < |t| && t[j].Blend? && t[j].corner == c
  }

  /** The blends of the first `n` corners: each corner not flagged as exempt, in corner
      order, through its own mask onto its own patch. */
  function Blends(rects: seq<Rect>, masks: seq<Mask>, exempt: seq<bool>, n: nat): (t: seq<Event>)
    requires n <= |rects| && n <= |masks| && n <= |exempt|
    ensures forall j :: 0 <= j < |t| ==>
      t[j].Blend? && t[j].corner < n && !exempt[t[j].corner] &&
      t[j].target == rects[t[j].corner] && t[j].mask == masks[t[j].corner]
    ensures forall j, k :: 0 <= j < k < |t| ==> t[j].corner < t[k].corner
  {
    if n == 0 then []
    else
      var prev := Blends(rects, masks, exempt, n - 1);
      if exempt[n - 1] then prev
      else prev + [Blend(n - 1, rects[n - 1], masks[n - 1])]
  }

  /** Every corner below `n` that is not exempt is blended. */
  lemma {:induction false} BlendsCoverNonExempt(rects: seq<Rect>, masks: seq<Mask>, exempt: seq<bool>, n: nat)
    requires n <= |rects| && n <= |masks| && n <= |exempt|
    ensures forall c: nat :: c < n && !exempt[c] ==> Blended(Blends(rects, masks, exempt, n), c)
  {
    if n > 0 {
      var prev := Blends(rects, masks, exempt, n - 1);
      BlendsCoverNonExempt(rects, masks, exempt, n - 1);
      if !exempt[n - 1] {
        var b := Blend(n - 1, rects[n - 1], masks[n - 1]);
        assert Blends(rects, masks, exempt, n) == prev + [b];
        assert (prev + [b])[|prev|] == b;
        forall c: nat | c < n - 1 && !exempt[c] ensures Blended(prev + [b], c) {
          var j :| 0 <= j < |prev| && prev[j].Blend? && prev[j].corner == c;
          assert (prev + [b])[j] == prev[j];
        }
      }
    }
  }

  /** A shaped paint: all four captures, then the one default paint, then the blends. */
  function ShapedTrace(rects: seq<Rect>, masks: seq<Mask>, exempt: seq<bool>,
                       screenHeight: int, painted: seq<Quad>): seq<Event>
    requires |rects| == NTex && |masks| == NTex && |exempt| == NTex
  {
    Captures(rects, screenHeight, NTex) + [PaintDefault(painted)] + Blends(rects, masks, exempt, NTex)
  }

  /** The number of default paints in a trace. */
  function PaintCount(t: seq<Event>): nat {
    if t == [] then 0 else (if t[0].PaintDefault? then 1 else 0) + PaintCount(t[1..])
  }

  lemma {:induction false} PaintCountConcat(a: seq<Event>, b: seq<Event>)
    ensures PaintCount(a + b) == PaintCount(a) + PaintCount(b)
  {
    if a != [] {
      assert (a + b)[1..] == a[1..] + b;
      PaintCountConcat(a[1..], b);
    } else {
      assert a + b == b;
    }
  }

  lemma {:induction false} NoPaintIn(t: seq<Event>)
    requires forall j :: 0 <= j < |t| ==> !t[j].PaintDefault?
    ensures PaintCount(t) == 0
  {
    if t != [] {
      NoPaintIn(t[1..]);
    }
  }

  /** With no corner exempt, the blends are one per corner, in corner order. */
  lemma {:induction false} NoneExemptBlendsAll(rects: seq<Rect>, masks: seq<Mask>, exempt: seq<bool>, n: nat)
    requires n <= |rects| && n <= |masks| && n <= |exempt|
    requires forall c :: 0 <= c < n ==> !exempt[c]
    ensures var t := Blends(rects, masks, exempt, n);
      |t| == n && forall j :: 0 <= j < n ==> t[j] == Blend(j, rects[j], masks[j])
  {
    if n > 0 {
      var prev := Blends(rects, masks, exempt, n - 1);
      var t := Blends(rects, masks, exempt, n);
      NoneExemptBlendsAll(rects, masks, exempt, n - 1);
      assert t == prev + [Blend(n - 1, rects[n - 1], masks[n - 1])];
      forall j | 0 <= j < n
        ensures t[j] == Blend(j, rects[j], masks[j])
      {
        if j < n - 1 {
          assert t[j] == prev[j];
        }
      }
    }
  }

  /** With no corner exempt, a shaped paint is the four captures, the paint, and then
      the four blends in corner order. */
  lemma UnexemptShapedTrace(rects: seq<Rect>, masks: seq<Mask>, exempt: seq<bool>,
                            screenHeight: int, painted: seq<Quad>)
    requires |rects| == NTex && |masks| == NTex && |exempt| == NTex
    requires forall c :: 0 <= c < NTex ==> !exempt[c]
    ensures var t := ShapedTrace(rects, masks, exempt, screenHeight, painted);
      |t| == 2 * NTex + 1 && t[NTex] == PaintDefault(painted) &&
      forall c :: 0 <= c < NTex ==> t[NTex + 1 + c] == Blend(c, rects[c], masks[c])
  {
    var caps := Captures(rects, screenHeight, NTex);
    var blends := Blends(rects, masks, exempt, NTex);
    NoneExemptBlendsAll(rects, masks, exempt, NTex);
    var t := caps + [PaintDefault(painted)] + blends;
    assert forall c :: 0 <= c < NTex ==> t[NTex + 1 + c] == blends[c];
  }

  /** A shaped paint paints the window exactly once, with the quad list `painted`, and
      captures no scratch texture after that paint. */
  lemma PaintedExactlyOnce(rects: seq<Rect>, masks: seq<Mask>, exempt: seq<bool>,
                           screenHeight: int, painted: seq<Quad>)
    requires |rects| == NTex && |masks| == NTex && |exempt| == NTex
    ensures var t := ShapedTrace(rects, masks, exempt, screenHeight, painted);
      PaintCount(t) == 1 &&
      forall j :: 0 <= j < |t| && t[j].PaintDefault? ==>
        t[j].quads == painted && forall k :: j < k < |t| ==> !t[k].Capture?
  {
    var caps := Captures(rects, screenHeight, NTex);
    var blends := Blends(rects, masks, exempt, NTex);
    NoPaintIn(caps);
    NoPaintIn(blends);
    PaintCountConcat(caps, [PaintDefault(painted)]);
    PaintCountConcat(caps + [PaintDefault(painted)], blends);
    assert PaintCount([PaintDefault(painted)]) == 1;
  }

  /** In a shaped paint the four captures, corner by corner, come first; the default
      paint is the fifth operation; every later operation is a blend, and a corner is
      blended exactly when it is not exempt. */
  lemma ShapedTraceOrder(rects: seq<Rect>, masks: seq<Mask>, exempt: seq<bool>,
                         screenHeight: int, painted: seq<Quad>)
    requires |rects| == NTex && |masks| == NTex && |exempt| == NTex
    ensures var t := ShapedTrace(rects, masks, exempt, screenHeight, painted);
      |t| >= NTex + 1 &&
      (forall j :: 0 <= j < NTex ==> t[j] == CaptureOf(j, rects[j], screenHeight)) &&
      t[NTex] == PaintDefault(painted) &&
      (forall j :: NTex < j < |t| ==> t[j].Blend?) &&
      (forall c: nat :: c < NTex ==> (Blended(t, c) <==> !exempt[c]))
  {
    var caps := Captures(rects, screenHeight, NTex);
    var blends := Blends(rects, masks, exempt, NTex);
    var head := caps + [PaintDefault(painted)];
    var t := head + blends;
    assert forall j :: 0 <= j < NTex ==> t[j] == caps[j];
    assert forall j :: NTex < j < |t| ==> t[j] == blends[j - NTex - 1];
    BlendsCoverNonExempt(rects, masks, exempt, NTex);
    forall c: nat | c < NTex
      ensures Blended(t, c) <==> !exempt[c]
    {
      BlendedAfter(head, blends, c);
      if Blended(blends, c) {
        var j :| 0 <= j < |blends| && blends[j].Blend? && blends[j].corner == c;
      }
    }
  }

  /** Blends after a prefix without blends are found exactly where they are in the suffix. */
  lemma BlendedAfter(p: seq<Event>, b: seq<Event>, c: nat)
    requires forall j :: 0 <= j < |p| ==> !p[j].Blend?
    ensures Blended(p + b, c) <==> Blended(b, c)
  {
    if Blended(b, c) {
      var j :| 0 <= j < |b| && b[j].Blend? && b[j].corner == c;
      assert (p + b)[|p| + j] == b[j];
    }
    if Blended(p + b, c) {
      var j :| 0 <= j < |p + b| && (p + b)[j].Blend? && (p + b)[j].corner == c;
      assert (p + b)[j] == b[j - |p|];
    }
  }

  /** When every patch is the square of its corner's radius, each blend of a shaped paint
      draws a square patch exactly as large as the mask it is drawn through. */
  lemma BlendsFitMasks(geo: Rect, sizes: seq<int>, corners: seq<Size>, style: CornerType,
                       exempt: seq<bool>, screenHeight: int, painted: seq<Quad>)
    requires |sizes| >= NTex && |corners| == |sizes| && |exempt| == NTex && NonNegative(sizes)
    requires forall i :: 0 <= i < |sizes| ==> corners[i] == Square(sizes[i])
    ensures var rects := CornerRects(geo, sizes, corners);
      var t := ShapedTrace(rects, MasksFor(style, sizes), exempt, screenHeight, painted);
      forall j :: 0 <= j < |t| && t[j].Blend? ==>
        t[j].target == rects[t[j].corner] &&
        t[j].target.width == t[j].target.height == t[j].mask.side >= 0
  {
    var rects := CornerRects(geo, sizes, corners);
    var masks := MasksFor(style, sizes);
    var caps := Captures(rects, screenHeight, NTex);
    var blends := Blends(rects, masks, exempt, NTex);
    var t := caps + [PaintDefault(painted)] + blends;
    forall j | 0 <= j < |t| && t[j].Blend?
      ensures t[j].target == rects[t[j].corner]
      ensures t[j].target.width == t[j].target.height == t[j].mask.side >= 0
    {
      assert j > NTex;
      assert t[j] == blends[j - NTex - 1];
      var c := t[j].corner;
      assert t[j].mask == MaskFor(style, sizes[c], c);
    }
  }
}
