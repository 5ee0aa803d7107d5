/** What readConfig makes of the General group of shapecornersrc: the corner style, the
    sanitised and expanded radius list, and the flags and class lists copied as read. */
module Config {
  import opened Text
  import opened Geometry

  /** The effect's CornerType; Normal means "draw nothing". */
  datatype CornerType = Normal | Rounded | Chiseled

  /** The values read from the configuration group, keys as named in the file. */
  datatype Entries = Entries(
    radius: seq<int>,
    typeText: string,
    squareAtScreenEdge: bool,
    filterShadow: bool,
    whitelist: seq<string>,
    blacklist: seq<string>)

  /** What readEntry yields for every key that is absent. */
  function DefaultEntries(): Entries {
    Entries([10, 10, 10, 10], "rounded", false, false, [], [])
  }

  /** The style named by the Type text; "rounded" is looked for first, and text naming
      neither style keeps the style the effect already had. */
  ghost function ResolveType(prev: CornerType, text: string): CornerType {
    if ContainsCI(text, "rounded") then Rounded
    else if ContainsCI(text, "chiseled") then Chiseled
    else prev
  }

  /** Every radius, negative ones replaced by 0. */
  function Clamped(xs: seq<int>): seq<int> {
    seq(|xs|, i requires 0 <= i < |xs| => if xs[i] < 0 then 0 else xs[i])
  }

  predicate AllZero(xs: seq<int>) {
    forall i :: 0 <= i < |xs| ==> xs[i] == 0
  }

  predicate NonNegative(xs: seq<int>) {
    forall i :: 0 <= i < |xs| ==> xs[i] >= 0
  }

  /** The mirroring expansion of a short radius list to the four corners
      TopLeft, TopRight, BottomRight, BottomLeft. */
  function Expanded(xs: seq<int>): seq<int> {
    if |xs| == 1 then xs + [xs[0], xs[0], xs[0]]
    else if |xs| == 2 then xs + [xs[0], xs[1]]
    else if |xs| == 3 then xs + [xs[1]]
    else xs
  }

  /** The expansion keeps the configured radii in front and mirrors them: one radius
      serves all four corners, two give the diagonals, three lend the top right radius to
      the bottom left corner; an empty list or one of four or more is kept as it is. */
  lemma ExpandedMirrors(xs: seq<int>)
    ensures var r := Expanded(xs);
      (|xs| >= 1 ==> |r| >= NTex) &&
      |r| >= |xs| && r[..|xs|] == xs &&
      (|xs| == 0 || |xs| >= NTex ==> r == xs) &&
      (1 <= |xs| < NTex ==> |r| == NTex && r[BottomLeft] == r[TopRight]) &&
      (1 <= |xs| <= 2 ==> r[BottomRight] == r[TopLeft]) &&
      (|xs| == 1 ==> r[TopRight] == r[TopLeft]) &&
      (forall i :: 0 <= i < |r| ==> r[i] in xs)
  {
  }

  /** The style after readConfig, given the style before it. */
  ghost function NextType(prev: CornerType, e: Entries): CornerType {
    if AllZero(Clamped(e.radius)) then Normal else ResolveType(prev, e.typeText)
  }

  /** The radius list after readConfig, given the list before it. */
  function NextSize(prev: seq<int>, e: Entries): seq<int> {
    if AllZero(Clamped(e.radius)) then prev else Expanded(Clamped(e.radius))
  }

  /** The Type lookup of readConfig: "rounded" is tried first, then "chiseled"; a text
      naming neither leaves the style as it was. */
  method ResolveStyle(prev: CornerType, text: string) returns (style: CornerType)
    ensures style == ResolveType(prev, text)
    ensures style == Normal ==> prev == Normal
  {
    style := prev;
    var isRounded := ContainsIgnoringCase(text, "rounded");
    if isRounded {
      style := Rounded;
    } else {
      var isChiseled := ContainsIgnoringCase(text, "chiseled");
      if isChiseled {
        style := Chiseled;
      }
    }
  }

  /** The clamping loop of readConfig: negative radii become 0 in place, and the loop
      notes whether every radius ended up 0. */
  method ClampRadii(radius: seq<int>) returns (sizes: seq<int>, isAllZero: bool)
    ensures sizes == Clamped(radius) && NonNegative(sizes)
    ensures isAllZero <==> AllZero(sizes)
  {
    sizes := radius;
    isAllZero := true;
    var i := 0;
    while i < |sizes|
      invariant i <= |sizes| == |radius|
      invariant forall j :: 0 <= j < i ==> sizes[j] == if radius[j] < 0 then 0 else radius[j]
      invariant forall j :: i <= j < |sizes| ==> sizes[j] == radius[j]
      invariant isAllZero <==> forall j :: 0 <= j < i ==> sizes[j] == 0
    {
      if sizes[i] < 0 {
        sizes := sizes[i := 0];
      }
      isAllZero := isAllZero && sizes[i] == 0;
      i := i + 1;
    }
  }

  /** The switch on the list length in readConfig, appending mirrored radii. */
  method ExpandRadii(radius: seq<int>) returns (sizes: seq<int>)
    ensures sizes == Expanded(radius)
  {
    sizes := radius;
    if |sizes| == 1 {
      sizes := sizes + [sizes[0]];
      sizes := sizes + [sizes[0]];
      sizes := sizes + [sizes[0]];
      assert sizes == radius + [radius[0], radius[0], radius[0]];
    } else if |sizes| == 2 {
      sizes := sizes + [sizes[0]];
      sizes := sizes + [sizes[1]];
      assert sizes == radius + [radius[0], radius[1]];
    } else if |sizes| == 3 {
      sizes := sizes + [sizes[1]];
    }
  }

  /** readConfig keeps every radius non-negative and gives a styled effect at least four
      radii; an all-zero (or empty) list switches the style off and keeps the old radii. */
  lemma ReadConfigInvariant(prevType: CornerType, prevSize: seq<int>, e: Entries)
    requires NonNegative(prevSize)
    ensures NonNegative(NextSize(prevSize, e))
    ensures NextType(prevType, e) != Normal ==> |NextSize(prevSize, e)| >= NTex
    ensures AllZero(Clamped(e.radius)) ==>
      NextType(prevType, e) == Normal && NextSize(prevSize, e) == prevSize
  {
    var c := Clamped(e.radius);
    if !AllZero(c) {
      assert |c| >= 1;
      var r := Expanded(c);
      ExpandedMirrors(c);
      forall i | 0 <= i < |r| ensures r[i] >= 0 {
        assert r[i] in c;
      }
    }
  }

  /** Reading the same configuration twice changes nothing the second time. */
  lemma ReadConfigIdempotent(prevType: CornerType, prevSize: seq<int>, e: Entries)
    ensures NextType(NextType(prevType, e), e) == NextType(prevType, e)
    ensures NextSize(NextSize(prevSize, e), e) == NextSize(prevSize, e)
  {
  }

  /** The effect starts with style Normal, so text naming neither style leaves it inert. */
  lemma InertUntilStyleNamed(e: Entries)
    requires !ContainsCI(e.typeText, "rounded") && !ContainsCI(e.typeText, "chiseled")
    ensures NextType(Normal, e) == Normal
  {
  }
}
