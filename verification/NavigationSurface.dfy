/** The navigation backdrop (shrine/NavigationSurface.kt): which layout a
    screen width gets, the left inset, the header's animation targets and
    tweens per visibility, and the ordered navigation entries with their
    staggered entrance. The screen width is an input. */
module NavigationSurface {
  import opened ShrineData
  import opened Motion
  import Text

  const LargeWidthBreakpoint: int := 1280
  const MediumWidthBreakpoint: int := 1024
  const SmallWidthBreakpoint: int := 640

  /** A fixed side panel of the given width, a top bar with the navigation
      items inline, or an app bar over a menu that opens and closes. */
  datatype NavLayout = SidePanel(width: nat) | TopBar | CollapsibleMenu

  function LayoutFor(screenWidth: int): (l: NavLayout)
    ensures l.SidePanel? <==> screenWidth >= 1280
    ensures l.SidePanel? ==> l.width == 232
    ensures l == TopBar <==> 1024 <= screenWidth < 1280
    ensures l == CollapsibleMenu <==> screenWidth < 1024
  {
    if screenWidth < LargeWidthBreakpoint then
      if screenWidth >= MediumWidthBreakpoint then TopBar else CollapsibleMenu
    else SidePanel(232)
  }

  /** The orientation handed to the navigation items' host: horizontal in
      the top bar; in the collapsible menu the width test for horizontal can
      no longer hold; the side panel keeps the vertical default. */
  function NavHostHorizontal(screenWidth: int): (horizontal: bool)
    ensures horizontal <==> LayoutFor(screenWidth) == TopBar
  {
    match LayoutFor(screenWidth)
    case SidePanel(_) => false
    case TopBar => true
    case CollapsibleMenu => screenWidth >= MediumWidthBreakpoint
  }

  /** The top bar shows its items always; elsewhere they follow the menu. */
  function NavItemsVisible(screenWidth: int, inForeground: bool): (visible: bool)
    ensures LayoutFor(screenWidth) == TopBar ==> visible
    ensures LayoutFor(screenWidth) != TopBar ==> visible == inForeground
  {
    if LayoutFor(screenWidth) == TopBar then true else inForeground
  }

  /** `withLeftInset`: 12 dp more on screens wider than the small breakpoint. */
  function WithLeftInset(screenWidth: int, number: int): (dp: int)
    ensures screenWidth > 640 ==> dp == number + 12
    ensures screenWidth <= 640 ==> dp == number
  {
    number + if screenWidth > SmallWidthBreakpoint then 12 else 0
  }

  /** Width of the tappable menu toggle. */
  function ToggleWidth(screenWidth: int): (dp: int)
    ensures dp - WithLeftInset(screenWidth, 0) == 56
  {
    WithLeftInset(screenWidth, 56)
  }

  /** Gap after the search action in the app bar. */
  function ActionSpacer(screenWidth: int): (dp: int)
    ensures dp == 20 <==> screenWidth > 640
    ensures dp == 12 <==> screenWidth <= 640
  {
    if screenWidth > SmallWidthBreakpoint then 20 else 12
  }

  // ----- Header animation -----

  datatype Visibility = Visible | Gone

  function VisibilityOf(shown: bool): (v: Visibility)
    ensures v == Visible <==> shown
  {
    if shown then Visible else Gone
  }

  /** The menu icon, the logo and the "Menu" title follow the menu. */
  function MenuTarget(inForeground: bool): (v: Visibility)
    ensures v == Visible <==> inForeground
  {
    VisibilityOf(inForeground)
  }

  /** The "Shrine" title does the opposite. */
  function ShrineTitleTarget(inForeground: bool): (v: Visibility)
    ensures v == Visible <==> !inForeground
  {
    VisibilityOf(!inForeground)
  }

  /** The toggle asks for the opposite of the current menu state. */
  function ToggleRequest(inForeground: bool): (show: bool)
    ensures show != inForeground
  {
    !inForeground
  }

  function LogoOffset(screenWidth: int, v: Visibility): (dp: int)
    ensures v == Gone ==> dp == WithLeftInset(screenWidth, 24)
    ensures v == Visible ==> dp == WithLeftInset(screenWidth, 0)
  {
    WithLeftInset(screenWidth, if v == Gone then 24 else 0)
  }

  /** Alpha of the menu icon, 1 opaque and 0 transparent. */
  function MenuIconAlpha(v: Visibility): (a: nat)
    ensures a == 0 <==> v == Visible
    ensures a <= 1
  {
    if v == Visible then 0 else 1
  }

  function MenuTitleOffset(v: Visibility): (dp: int)
    ensures dp == 0 <==> v == Visible
    ensures v == Gone ==> dp == 20
  {
    match v
    case Visible => 0
    case Gone => 20
  }

  function ShrineTitleOffset(v: Visibility): (dp: int)
    ensures dp == 0 <==> v == Visible
    ensures v == Gone ==> dp == -10
  {
    match v
    case Visible => 0
    case Gone => -10
  }

  /** Alpha of either title. */
  function TitleAlpha(v: Visibility): (a: nat)
    ensures a == 1 <==> v == Visible
    ensures a <= 1
  {
    match v
    case Visible => 1
    case Gone => 0
  }

  /** Every header animation: appearing waits 90 ms and takes 180 ms,
      anything else takes 120 ms at once. */
  function VisibilitySpec(from: Visibility, to: Visibility): (t: Tween)
    ensures from == Gone && to == Visible ==> t == Tween(180, 90)
    ensures !(from == Gone && to == Visible) ==> t == Tween(120, 0)
  {
    if from == Gone && to == Visible then Tween(180, 90) else Tween(120, 0)
  }

  /** Exactly one of the two titles is targeted to be shown, and it is the
      one sitting at its resting offset. */
  lemma TitlesAlternate(inForeground: bool)
    ensures MenuTarget(inForeground) != ShrineTitleTarget(inForeground)
    ensures TitleAlpha(MenuTarget(inForeground)) + TitleAlpha(ShrineTitleTarget(inForeground)) == 1
    ensures (MenuTitleOffset(MenuTarget(inForeground)) == 0) != (ShrineTitleOffset(ShrineTitleTarget(inForeground)) == 0)
  {
  }

  /** Toggling moves the logo by 24 dp whatever the inset, and the menu icon
      fades in as the logo moves right. */
  lemma ToggleMovesLogo(screenWidth: int, inForeground: bool)
    ensures var before := MenuTarget(inForeground);
            var after := MenuTarget(ToggleRequest(inForeground));
            && before != after
            && (LogoOffset(screenWidth, after) - LogoOffset(screenWidth, before) == 24 <==> after == Gone)
            && (LogoOffset(screenWidth, after) > LogoOffset(screenWidth, before) <==> MenuIconAlpha(after) == 1)
  {
  }

  /** The menu icon is composed only while the menu is closed, at the
      inset position. */
  function MenuIconShown(inForeground: bool): (shown: bool)
    ensures shown <==> MenuTarget(inForeground) == Gone
  {
    !inForeground
  }

  function MenuIconOffset(screenWidth: int): (dp: int)
    ensures screenWidth > 640 ==> dp == 12
    ensures screenWidth <= 640 ==> dp == 0
  {
    WithLeftInset(screenWidth, 0)
  }

  /** Whenever the menu icon is on screen its target alpha is opaque and the
      logo rests 24 dp to its right; with the menu open the logo takes the
      icon's place. */
  lemma LogoMakesRoomForIcon(screenWidth: int, inForeground: bool)
    ensures MenuIconShown(inForeground) ==>
              MenuIconAlpha(MenuTarget(inForeground)) == 1
              && LogoOffset(screenWidth, MenuTarget(inForeground)) == MenuIconOffset(screenWidth) + 24
    ensures !MenuIconShown(inForeground) ==>
              LogoOffset(screenWidth, MenuTarget(inForeground)) == MenuIconOffset(screenWidth)
  {
  }

  /** On every toggle the title that leaves starts at once and is done after
      120 ms, while the one that arrives waits 90 ms and settles at 270 ms:
      the two overlap for 30 ms. */
  lemma TitlesCrossFade(inForeground: bool)
    ensures var show := ToggleRequest(inForeground);
            var menu := VisibilitySpec(MenuTarget(inForeground), MenuTarget(show));
            var shrine := VisibilitySpec(ShrineTitleTarget(inForeground), ShrineTitleTarget(show));
            var incoming := if show then menu else shrine;
            var outgoing := if show then shrine else menu;
            && outgoing.delayMillis == 0 && outgoing.Settles() == 120
            && incoming.delayMillis == 90 && incoming.Settles() == 270
            && incoming.delayMillis < outgoing.Settles()
  {
  }

  // ----- Navigation entries -----

  /** Entries in the order the host lays them out. */
  datatype NavEntry = CategoryItem(category: Category, active: bool) | Divider | Logout

  /** One entry per category value, in the enum's order, marking the active one. */
  function CategoryEntries(values: seq<Category>, activeCategory: Category): (r: seq<NavEntry>)
    ensures |r| == |values|
    ensures forall i :: 0 <= i < |values| ==> r[i] == CategoryItem(values[i], values[i] == activeCategory)
  {
    if values == [] then []
    else [CategoryItem(values[0], values[0] == activeCategory)] + CategoryEntries(values[1..], activeCategory)
  }

  /** `NavItems`: the categories in enum order (`values` is
      `Category.values()`), then the divider, then Logout. */
  function NavEntries(values: seq<Category>, activeCategory: Category): (r: seq<NavEntry>)
    ensures |r| == |values| + 2
    ensures r[..|values|] == CategoryEntries(values, activeCategory)
    ensures r[|values|] == Divider && r[|values| + 1] == Logout
  {
    CategoryEntries(values, activeCategory) + [Divider, Logout]
  }

  /** With distinct enum values, exactly the entry of the active category is
      marked active, and it is there whenever the category is. */
  lemma ActiveEntryUnique(values: seq<Category>, activeCategory: Category)
    requires forall i, j :: 0 <= i < j < |values| ==> values[i] != values[j]
    ensures var r := NavEntries(values, activeCategory);
            && (forall i :: 0 <= i < |values| ==> r[i].CategoryItem? && r[i].category == values[i])
            && (forall i, j :: 0 <= i < |r| && 0 <= j < |r|
                  && r[i].CategoryItem? && r[i].active && r[j].CategoryItem? && r[j].active
                  ==> i == j)
            && (activeCategory in values <==> exists i :: 0 <= i < |r| && r[i].CategoryItem? && r[i].active)
  {
    var r := NavEntries(values, activeCategory);
    var cats := CategoryEntries(values, activeCategory);
    assert forall i :: 0 <= i < |values| ==> r[i] == cats[i];
    if activeCategory in values {
      var i :| 0 <= i < |values| && values[i] == activeCategory;
      assert r[i].CategoryItem? && r[i].active;
    }
  }

  /** The label of a category entry. */
  function NavItemLabel(c: Category): (text: string)
    ensures |text| == |CategoryName(c)|
    ensures forall i :: 0 <= i < |text| ==> text[i] == Text.UpperChar(CategoryName(c)[i])
    ensures forall i :: 0 <= i < |text| ==> !Text.IsLower(text[i])
  {
    Text.Upper(CategoryName(c))
  }

  /** `AnimateListItem` entrance: a 240 ms fade-in whose start is staggered
      by the entry's position. */
  function EnterSpec(idx: int): (t: Tween)
    requires idx >= 0
    ensures t.durationMillis == 240
    ensures t.delayMillis == idx * 15 + 60
  {
    Tween(240, idx * 15 + 60)
  }

  function ExitSpec(): (t: Tween)
    ensures t.delayMillis == 0 && t.durationMillis == 90
  {
    Tween(90, 0)
  }

  /** Entries fade in one after another, top to bottom, 15 ms apart, so every
      category is under way before the divider, and the divider before Logout;
      all of them leave together. */
  lemma EntranceStaggered(values: seq<Category>, i: nat, j: nat)
    requires i < j < |values| + 2
    ensures EnterSpec(j).delayMillis - EnterSpec(i).delayMillis == 15 * (j - i)
    ensures EnterSpec(i).delayMillis < EnterSpec(|values|).delayMillis < EnterSpec(|values| + 1).delayMillis
            || i == |values|
    ensures ExitSpec().delayMillis == 0
  {
  }
}
