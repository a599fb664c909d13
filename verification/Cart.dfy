/** The bottom cart panel (shrine/Cart.kt): which of its three states is the
    target, where each state puts the panel, and which tween each animated
    value uses for each transition. Sizes are whole dp; alphas are 0 or 1. */
module Cart {
  import opened Motion

  datatype CartState = Closed | Opened | Hidden

  /** The state the cart transition moves to: hiding wins over expanding. */
  function TargetState(hidden: bool, expanded: bool): (s: CartState)
    ensures s == Hidden <==> hidden
    ensures s == Opened <==> !hidden && expanded
    ensures s == Closed <==> !hidden && !expanded
  {
    if hidden then Hidden else if expanded then Opened else Closed
  }

  /** Start padding, three 40 dp slots (cart icon with its padding and two
      thumbnails), two 16 dp gaps and the end padding of the collapsed row. */
  const CollapsedWidth: int := 24 + 40 * 3 + 16 * 2 + 16

  /** A 40 dp thumbnail with 8 dp above and below. */
  const CollapsedHeight: int := 40 + 8 + 8

  /** Target x offset of the panel: off-screen when hidden, flush left when
      opened, showing only the collapsed row otherwise. */
  function XOffset(s: CartState, maxWidth: int): (x: int)
    ensures s == Hidden ==> x == maxWidth
    ensures s == Opened ==> x == 0
    ensures s == Closed ==> maxWidth - x == 192
  {
    match s
    case Hidden => maxWidth
    case Opened => 0
    case Closed => maxWidth - CollapsedWidth
  }

  function Height(s: CartState, maxHeight: int): (h: int)
    ensures s == Opened ==> h == maxHeight
    ensures s != Opened ==> h == 56
  {
    if s == Opened then maxHeight else CollapsedHeight
  }

  function CornerSize(s: CartState): (c: int)
    ensures c == 0 <==> s == Opened
    ensures s != Opened ==> c == 24
  {
    if s == Opened then 0 else 24
  }

  /** Alpha of the collapsed row, 1 for opaque and 0 for transparent. */
  function CollapsedAlpha(s: CartState): (a: nat)
    ensures a == 0 <==> s == Opened
    ensures a <= 1
  {
    if s == Opened then 0 else 1
  }

  function XOffsetSpec(from: CartState, to: CartState): (t: Tween)
    ensures (from, to) == (Closed, Hidden) || (from, to) == (Hidden, Closed) ==> t == Tween(450, 0)
    ensures (from, to) == (Opened, Closed) ==> t == Tween(433, 67)
    ensures (from, to) !in {(Closed, Hidden), (Hidden, Closed), (Opened, Closed)} ==> t == Tween(150, 0)
  {
    if from == Closed && to == Hidden then Tween(450, 0)
    else if from == Hidden && to == Closed then Tween(450, 0)
    else if from == Opened && to == Closed then Tween(433, 67)
    else Tween(150, 0)
  }

  function HeightSpec(from: CartState, to: CartState): (t: Tween)
    ensures t.delayMillis == 0
    ensures t.durationMillis == 283 <==> from == Opened && to == Closed
    ensures t.durationMillis != 283 ==> t.durationMillis == 500
  {
    if from == Opened && to == Closed then Tween(283, 0) else Tween(500, 0)
  }

  function CornerSizeSpec(from: CartState, to: CartState): (t: Tween)
    ensures from == Opened && to == Closed ==> t == Tween(433, 67)
    ensures !(from == Opened && to == Closed) ==> t == Tween(150, 0)
  {
    if from == Opened && to == Closed then Tween(433, 67) else Tween(150, 0)
  }

  function CollapsedAlphaSpec(from: CartState, to: CartState): (t: Tween)
    ensures from == Opened && to == Closed ==> t == Tween(117, 117)
    ensures !(from == Opened && to == Closed) ==> t == Tween(150, 0)
  {
    if from == Opened && to == Closed then Tween(117, 117) else Tween(150, 0)
  }

  /** The two controls inside the panel that report through `onExpand`. */
  datatype CartControl = CollapsedRow | CollapseButton

  function ExpandRequest(control: CartControl): (expand: bool)
    ensures expand <==> control == CollapsedRow
  {
    match control
    case CollapsedRow => true
    case CollapseButton => false
  }

  /** Width of a row of children laid out with a fixed gap between
      neighbours, plus start and end padding. */
  function RowWidth(start: nat, gap: nat, end: nat, children: seq<nat>): nat
  {
    if children == [] then start + end
    else if |children| == 1 then start + children[0] + end
    else RowWidth(start, gap, end, children[..|children| - 1]) + gap + children[|children| - 1]
  }

  /** Closing the cart leaves exactly the collapsed row on screen: the visible
      width is the width of the row (padding 24 and 16, gap 16, an icon of 24
      with 8 of padding each side, two 40 dp thumbnails) and the visible height
      is a thumbnail with the row's vertical padding. */
  lemma ClosedShowsCollapsedRow(maxWidth: int)
    ensures maxWidth - XOffset(Closed, maxWidth) == RowWidth(24, 16, 16, [8 + 24 + 8, 40, 40])
    ensures Height(Closed, 1) == 8 + 40 + 8
  {
    assert [8 + 24 + 8, 40, 40][..2] == [40, 40];
    assert [40, 40][..1] == [40];
  }

  /** The panel moves right as it goes from opened to closed to hidden, and
      stays on the screen whenever the screen is wider than the collapsed row. */
  lemma XOffsetOrdered(maxWidth: int)
    requires maxWidth >= CollapsedWidth
    ensures 0 == XOffset(Opened, maxWidth) <= XOffset(Closed, maxWidth) < XOffset(Hidden, maxWidth) == maxWidth
  {
  }

  /** Going from opened to closed, the collapsed row has faded back in before
      the panel reaches its collapsed height, and the slide and the corner,
      which start together after a delay, end together at 500 ms, the length
      of every other height animation. */
  lemma CloseFromOpenedTiming(from: CartState)
    requires from != Opened
    ensures CollapsedAlphaSpec(Opened, Closed).Settles() < HeightSpec(Opened, Closed).Settles()
            < XOffsetSpec(Opened, Closed).Settles() == CornerSizeSpec(Opened, Closed).Settles()
            == HeightSpec(from, Closed).Settles()
  {
  }
}
