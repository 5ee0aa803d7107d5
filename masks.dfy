/** The corner masks genMasks builds, described by their metadata: the style drawn, the
    side of the square canvas the shape is drawn on, and the side-by-side crop taken out
    of that canvas for one corner. The pixels themselves are not modelled. */
module Masks {
  import opened Wrappers
  import opened Geometry
  import opened Config

  datatype Mask = Mask(style: CornerType, canvasSide: int, cropX: int, cropY: int, side: int)

  /** The mask of corner `i` for radius `s`: a crop of side `s` taken from a canvas of
      side `2 * s`, from the right half for the right-hand corners and from the lower half
      (image rows grow downwards) for the top corners. */
  function MaskFor(style: CornerType, s: int, i: nat): (m: Mask)
    requires i < NTex
    ensures m.style == style && m.side == s && m.canvasSide == 2 * s
    ensures m.cropX == (if IsLeftCorner(i) then 0 else s)
    ensures m.cropY == (if IsTopCorner(i) then s else 0)
    ensures s >= 0 ==>
      0 <= m.cropX && m.cropX + m.side <= m.canvasSide &&
      0 <= m.cropY && m.cropY + m.side <= m.canvasSide
  {
    Mask(style, s * 2,
         if i == TopRight || i == BottomRight then s else 0,
         if i == TopLeft || i == TopRight then s else 0,
         s)
  }

  /** For a common positive radius, the four corners crop four different quadrants. */
  lemma QuadrantsDistinct(style: CornerType, s: int, i: nat, j: nat)
    requires s > 0 && i < j < NTex
    ensures var a, b := MaskFor(style, s, i), MaskFor(style, s, j);
      a.cropX != b.cropX || a.cropY != b.cropY
  {
  }

  /** The masks of the four corners for a styled configuration. */
  function MasksFor(style: CornerType, sizes: seq<int>): (ms: seq<Mask>)
    requires |sizes| >= NTex
    ensures |ms| == NTex
  {
    seq(NTex, i requires 0 <= i < NTex => MaskFor(style, sizes[i], i))
  }

  /** The slot table genMasks leaves behind: all empty for style Normal, otherwise the
      mask of each corner built from that corner's radius. */
  ghost predicate Generated(slots: seq<Option<Mask>>, style: CornerType, sizes: seq<int>) {
    |slots| == NTex &&
    if style == Normal then
      forall i :: 0 <= i < NTex ==> slots[i] == None
    else
      |sizes| >= NTex && forall i :: 0 <= i < NTex ==> slots[i] == Some(MaskFor(style, sizes[i], i))
  }

  // ---------------------------------------------------------------------------------
  // The mask pointers as the C++ code handles them. genMasks deletes every non-null
  // pointer without resetting it; when the style is Normal it then returns, leaving the
  // slots dangling, and the next genMasks or the destructor deletes them a second time.

  /** A mask pointer: null, owning a live mask, or pointing to a mask already deleted. */
  datatype Slot = Null | Live(mask: Mask) | Freed

  /** The slots after a run of deletions, and whether a deleted mask was deleted again. */
  datatype Deletion = Deletion(slots: seq<Slot>, doubleDelete: bool)

  /** The delete loop as written: non-null pointers are deleted and left as they are. */
  function DeleteAllAsWritten(slots: seq<Slot>): (d: Deletion)
    ensures |d.slots| == |slots|
    ensures d.doubleDelete <==> Freed in slots
    ensures forall i :: 0 <= i < |slots| ==> d.slots[i] == (if slots[i] == Null then Null else Freed)
  {
    if slots == [] then Deletion([], false)
    else
      var rest := DeleteAllAsWritten(slots[1..]);
      assert slots == [slots[0]] + slots[1..];
      Deletion([if slots[0] == Null then Null else Freed] + rest.slots,
               slots[0] == Freed || rest.doubleDelete)
  }

  /** One live mask per corner. */
  function Filled(style: CornerType, sizes: seq<int>): seq<Slot>
    requires |sizes| >= NTex
  {
    seq(NTex, i requires 0 <= i < NTex => Live(MaskFor(style, sizes[i], i)))
  }

  /** genMasks as written. */
  function GenMasksAsWritten(slots: seq<Slot>, style: CornerType, sizes: seq<int>): (d: Deletion)
    requires style != Normal ==> |sizes| >= NTex
    ensures style == Normal ==> d.slots == DeleteAllAsWritten(slots).slots
    ensures style != Normal ==> d.slots == Filled(style, sizes)
    ensures d.doubleDelete <==> Freed in slots
  {
    var d := DeleteAllAsWritten(slots);
    if style == Normal then d else Deletion(Filled(style, sizes), d.doubleDelete)
  }

  /** The destructor runs the same delete loop over the slots: true when it deletes a
      mask that was deleted before, that is, exactly when some slot dangles. */
  predicate DestructorDeletesTwice(slots: seq<Slot>)
    ensures DestructorDeletesTwice(slots) <==> Freed in slots
  {
    DeleteAllAsWritten(slots).doubleDelete
  }

  /** A styled configuration followed by an all-zero one: the second genMasks leaves the
      four masks dangling, and both the destructor and any later genMasks delete them again. */
  lemma DanglingMasksDeletedTwice()
    ensures var s0 := [Null, Null, Null, Null];
      var s1 := GenMasksAsWritten(s0, Rounded, [10, 10, 10, 10]);
      var s2 := GenMasksAsWritten(s1.slots, Normal, [10, 10, 10, 10]);
      !s1.doubleDelete && !s2.doubleDelete &&
      DestructorDeletesTwice(s2.slots) &&
      GenMasksAsWritten(s2.slots, Rounded, [10, 10, 10, 10]).doubleDelete
  {
    var s0 := [Null, Null, Null, Null];
    var s1 := GenMasksAsWritten(s0, Rounded, [10, 10, 10, 10]);
    assert s1.slots[0] == Live(MaskFor(Rounded, 10, 0));
    var s2 := GenMasksAsWritten(s1.slots, Normal, [10, 10, 10, 10]);
    assert s2.slots[0] == Freed;
  }

  // ---------------------------------------------------------------------------------
  // The corrected bookkeeping, which the effect model uses: a deleted mask's pointer is
  // reset to null.

  /** The slot a nullable mask pointer stands for. */
  function SlotOf(o: Option<Mask>): Slot {
    if o.None? then Null else Live(o.value)
  }

  function SlotsOf(t: seq<Option<Mask>>): (r: seq<Slot>)
    ensures |r| == |t| && Freed !in r
  {
    seq(|t|, i requires 0 <= i < |t| => SlotOf(t[i]))
  }

  /** genMasks with every deleted pointer reset to null. */
  function GenMasksNulling(slots: seq<Slot>, style: CornerType, sizes: seq<int>): (d: Deletion)
    requires style != Normal ==> |sizes| >= NTex
    ensures |d.slots| == NTex && Freed !in d.slots
    ensures d.doubleDelete <==> Freed in slots
  {
    var cleared := seq(NTex, i => Null);
    if style == Normal then Deletion(cleared, Freed in slots)
    else Deletion(Filled(style, sizes), Freed in slots)
  }

  /** Nulling regeneration run once per configuration in `configs`. */
  function RunNulling(slots: seq<Slot>, configs: seq<(CornerType, seq<int>)>): Deletion
    requires forall k :: 0 <= k < |configs| ==> configs[k].0 != Normal ==> |configs[k].1| >= NTex
    decreases |configs|
  {
    if configs == [] then Deletion(slots, false)
    else
      var d := GenMasksNulling(slots, configs[0].0, configs[0].1);
      var rest := RunNulling(d.slots, configs[1..]);
      Deletion(rest.slots, d.doubleDelete || rest.doubleDelete)
  }

  /** Regenerating with nulling over any series of configurations, starting from no
      dangling pointer, never deletes a mask twice, and neither does the destructor afterwards. */
  lemma {:induction false} NullingNeverDeletesTwice(slots: seq<Slot>, configs: seq<(CornerType, seq<int>)>)
    requires Freed !in slots
    requires forall k :: 0 <= k < |configs| ==> configs[k].0 != Normal ==> |configs[k].1| >= NTex
    ensures !RunNulling(slots, configs).doubleDelete
    ensures !DestructorDeletesTwice(RunNulling(slots, configs).slots)
    decreases |configs|
  {
    if configs != [] {
      var d := GenMasksNulling(slots, configs[0].0, configs[0].1);
      NullingNeverDeletesTwice(d.slots, configs[1..]);
    }
  }

  /** A slot table as genMasks leaves it is exactly the nulling regeneration's result. */
  lemma GeneratedIsNulling(t: seq<Option<Mask>>, before: seq<Slot>, style: CornerType, sizes: seq<int>)
    requires Generated(t, style, sizes)
    ensures SlotsOf(t) == GenMasksNulling(before, style, sizes).slots
  {
  }
}
