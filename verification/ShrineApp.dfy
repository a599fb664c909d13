/** The top-level app state (shrine/ShrineApp.kt): five pieces of UI state
    and the callbacks that reassign them. `AppState` and the transition
    functions are the reducer; `Shrine` is the stateful holder whose
    methods are proved to follow it. The catalog (`SampleItemsData`) is a
    constructor argument. */
module ShrineApp {
  import opened ShrineData
  import opened Motion
  import Cart
  import ExpandedCart

  const TopAppBarHeight: int := 56

  datatype AppState = AppState(
    activeCategory: Category,
    inventory: seq<ItemData>,
    showMenu: bool,
    showCart: bool,
    cartItems: seq<ItemData>)

  // ----- Lists -----

  /** The catalog items of one category, in catalog order. */
  function FilterCategory(items: seq<ItemData>, c: Category): (r: seq<ItemData>)
    ensures |r| <= |items|
    ensures forall x :: x in r <==> x in items && x.category == c
  {
    if items == [] then []
    else (if items[0].category == c then [items[0]] else []) + FilterCategory(items[1..], c)
  }

  /** Filtering a concatenation filters each part in place, so the filter
      keeps the catalog's order. */
  lemma {:induction false} FilterAppend(a: seq<ItemData>, b: seq<ItemData>, c: Category)
    ensures FilterCategory(a + b, c) == FilterCategory(a, c) + FilterCategory(b, c)
  {
    if a == [] {
      assert a + b == b;
    } else {
      assert (a + b)[1..] == a[1..] + b;
      FilterAppend(a[1..], b, c);
    }
  }

  /** Filtering keeps a list whose items all belong to the category as it is;
      in particular filtering twice is filtering once. */
  lemma {:induction false} FilterKeepsMatching(items: seq<ItemData>, c: Category)
    requires forall k :: 0 <= k < |items| ==> items[k].category == c
    ensures FilterCategory(items, c) == items
  {
    if items != [] {
      FilterKeepsMatching(items[1..], c);
    }
  }

  /** What the catalog grid shows for a navigation target. */
  function InventoryFor(catalog: seq<ItemData>, c: Category): (r: seq<ItemData>)
    ensures c == All ==> r == catalog
    ensures c != All ==> forall x :: x in r <==> x in catalog && x.category == c
  {
    if c == All then catalog else FilterCategory(catalog, c)
  }

  /** `filterIndexed { idx, _ -> idx != indexToRemove }` over a suffix that
      starts at list index `start`. */
  function KeepOtherIndices(items: seq<ItemData>, indexToRemove: int, start: int): (r: seq<ItemData>)
    ensures start <= indexToRemove < start + |items| ==>
              r == items[..indexToRemove - start] + items[indexToRemove - start + 1..]
    ensures !(start <= indexToRemove < start + |items|) ==> r == items
  {
    if items == [] then []
    else (if start != indexToRemove then [items[0]] else []) + KeepOtherIndices(items[1..], indexToRemove, start + 1)
  }

  /** The list without the item at `indexToRemove`; unchanged when no item has that index. */
  function RemoveIndex(items: seq<ItemData>, indexToRemove: int): (r: seq<ItemData>)
    ensures 0 <= indexToRemove < |items| ==>
              |r| == |items| - 1 && r == items[..indexToRemove] + items[indexToRemove + 1..]
    ensures !(0 <= indexToRemove < |items|) ==> r == items
  {
    KeepOtherIndices(items, indexToRemove, 0)
  }

  // ----- The reducer -----

  function Initial(catalog: seq<ItemData>): (s: AppState)
    requires |catalog| >= 2
    ensures s.activeCategory == All && s.inventory == catalog
    ensures !s.showMenu && !s.showCart
    ensures s.cartItems == [catalog[0], catalog[1]]
  {
    AppState(All, catalog, false, false, catalog[..2])
  }

  /** The state keeps the grid in step with the selected category. */
  predicate Consistent(catalog: seq<ItemData>, s: AppState)
  {
    s.inventory == InventoryFor(catalog, s.activeCategory)
  }

  /** `onToggle`. */
  function Toggled(s: AppState, show: bool): (t: AppState)
    ensures t.showMenu == show
    ensures t.(showMenu := s.showMenu) == s
  {
    s.(showMenu := show)
  }

  /** `onNavigate`: select the category, show its items, close the menu. */
  function Navigated(catalog: seq<ItemData>, s: AppState, c: Category): (t: AppState)
    ensures t.activeCategory == c && !t.showMenu
    ensures t.inventory == InventoryFor(catalog, c)
    ensures t.cartItems == s.cartItems && t.showCart == s.showCart
  {
    s.(activeCategory := c, inventory := InventoryFor(catalog, c), showMenu := false)
  }

  /** `onAddToCart`. */
  function AddedToCart(s: AppState, x: ItemData): (t: AppState)
    ensures |t.cartItems| == |s.cartItems| + 1 && t.cartItems[|s.cartItems|] == x
    ensures t.cartItems[..|s.cartItems|] == s.cartItems
    ensures t.(cartItems := s.cartItems) == s
  {
    s.(cartItems := s.cartItems + [x])
  }

  /** `onRemoveItem`. */
  function RemovedFromCart(s: AppState, indexToRemove: int): (t: AppState)
    ensures 0 <= indexToRemove < |s.cartItems| ==>
              t.cartItems == s.cartItems[..indexToRemove] + s.cartItems[indexToRemove + 1..]
    ensures !(0 <= indexToRemove < |s.cartItems|) ==> t.cartItems == s.cartItems
    ensures t.(cartItems := s.cartItems) == s
  {
    s.(cartItems := RemoveIndex(s.cartItems, indexToRemove))
  }

  /** `onExpand`. */
  function CartExpanded(s: AppState, expand: bool): (t: AppState)
    ensures t.showCart == expand
    ensures t.(showCart := s.showCart) == s
  {
    s.(showCart := expand)
  }

  /** The initial state shows the whole catalog and two items in the cart. */
  lemma InitialState(catalog: seq<ItemData>)
    requires |catalog| >= 2
    ensures var s := Initial(catalog);
            Consistent(catalog, s) && s.activeCategory == All && s.inventory == catalog
            && !s.showMenu && !s.showCart && s.cartItems == [catalog[0], catalog[1]]
  {
  }

  /** Every callback keeps the grid in step with the selected category. */
  lemma CallbacksKeepConsistent(catalog: seq<ItemData>, s: AppState, b: bool, c: Category, x: ItemData, k: int)
    requires Consistent(catalog, s)
    ensures Consistent(catalog, Toggled(s, b))
    ensures Consistent(catalog, Navigated(catalog, s, c))
    ensures Consistent(catalog, AddedToCart(s, x))
    ensures Consistent(catalog, RemovedFromCart(s, k))
    ensures Consistent(catalog, CartExpanded(s, b))
  {
  }

  /** Toggling sets the menu flag and nothing else; the catalog sheet and the
      cart panel both follow the flag. */
  lemma ToggleEffect(s: AppState, show: bool)
    ensures var t := Toggled(s, show);
            && t.showMenu == show && t.(showMenu := s.showMenu) == s
            && (ScreenTarget(t) == Collapsed <==> show)
            && (CartTarget(t) == Cart.Hidden <==> show)
            && Toggled(t, s.showMenu) == s
  {
  }

  /** Navigating closes the menu, shows exactly the catalog items of the new
      category (all of them for `All`), leaves the cart alone, and navigating
      to the same category again changes nothing. */
  lemma NavigateEffect(catalog: seq<ItemData>, s: AppState, c: Category)
    ensures var t := Navigated(catalog, s, c);
            && t.activeCategory == c && !t.showMenu
            && (c == All ==> t.inventory == catalog)
            && (c != All ==> forall x :: x in t.inventory <==> x in catalog && x.category == c)
            && t.cartItems == s.cartItems && t.showCart == s.showCart
            && Navigated(catalog, t, c) == t
  {
  }

  /** Navigating shows the catalog's items of the category in catalog order:
      a catalog split in two shows the first part's matches, then the second's. */
  lemma NavigateKeepsCatalogOrder(a: seq<ItemData>, b: seq<ItemData>, s: AppState, c: Category)
    ensures Navigated(a + b, s, c).inventory == Navigated(a, s, c).inventory + Navigated(b, s, c).inventory
  {
    if c != All {
      FilterAppend(a, b, c);
    }
  }

  /** Adding appends the item and keeps everything before it. */
  lemma AddToCartEffect(s: AppState, x: ItemData)
    ensures var t := AddedToCart(s, x);
            |t.cartItems| == |s.cartItems| + 1 && t.cartItems[|s.cartItems|] == x
            && t.cartItems[..|s.cartItems|] == s.cartItems
            && ExpandedCart.Subtotal(t.cartItems) == ExpandedCart.Subtotal(s.cartItems) + x.price
            && t.(cartItems := s.cartItems) == s
  {
    ExpandedCart.SubtotalAppend(s.cartItems, [x]);
    assert (s.cartItems + [x])[..|s.cartItems|] == s.cartItems;
  }

  /** Removing deletes exactly the item at the index, keeping the others in
      order, and lowers the subtotal by its price; an index with no item
      leaves the cart as it is. */
  lemma RemoveItemEffect(s: AppState, k: int)
    ensures var t := RemovedFromCart(s, k);
            && t.(cartItems := s.cartItems) == s
            && (0 <= k < |s.cartItems| ==>
                  t.cartItems == s.cartItems[..k] + s.cartItems[k + 1..]
                  && ExpandedCart.Subtotal(t.cartItems) == ExpandedCart.Subtotal(s.cartItems) - s.cartItems[k].price)
            && (!(0 <= k < |s.cartItems|) ==> t.cartItems == s.cartItems)
  {
    if 0 <= k < |s.cartItems| {
      ExpandedCart.SubtotalWithout(s.cartItems, k);
    }
  }

  /** A row's remove button removes that row's item. */
  lemma RemoveButtonRemovesItsRow(s: AppState, row: nat)
    requires row < |s.cartItems|
    ensures var r := ExpandedCart.Rows(s.cartItems)[row];
            RemovedFromCart(s, r.removeIndex).cartItems == s.cartItems[..row] + s.cartItems[row + 1..]
            && r.item == s.cartItems[row]
  {
  }

  // ----- What the state drives -----

  /** The cart panel is told to hide while the menu is shown and to expand
      while the cart is shown. */
  function CartTarget(s: AppState): (t: Cart.CartState)
    ensures t == Cart.Hidden <==> s.showMenu
    ensures t == Cart.Opened <==> !s.showMenu && s.showCart
  {
    Cart.TargetState(s.showMenu, s.showCart)
  }

  /** Both cart controls update `showCart` through `onExpand`: tapping the
      collapsed row opens the cart and the collapse button closes it. */
  lemma CartControlsOpenAndClose(s: AppState, control: Cart.CartControl)
    requires !s.showMenu
    ensures var t := CartExpanded(s, Cart.ExpandRequest(control));
            (control == Cart.CollapsedRow ==> CartTarget(t) == Cart.Opened)
            && (control == Cart.CollapseButton ==> CartTarget(t) == Cart.Closed)
            && t.(showCart := s.showCart) == s
  {
  }

  /** Opening the menu slides the cart fully off-screen, whatever its state. */
  lemma MenuHidesCart(s: AppState, maxWidth: int)
    ensures Cart.XOffset(CartTarget(Toggled(s, true)), maxWidth) == maxWidth
  {
  }

  datatype ScreenState = Collapsed | Expanded

  function ScreenTarget(s: AppState): (t: ScreenState)
    ensures t == Collapsed <==> s.showMenu
  {
    if s.showMenu then Collapsed else Expanded
  }

  /** Target y offset of the catalog sheet: pushed down to leave only the
      app bar above the navigation bar when collapsed, just below the app
      bar otherwise. */
  function ScreenOffset(t: ScreenState, maxHeight: int, navBarHeight: int): (y: int)
    ensures t == Collapsed ==> y + TopAppBarHeight + navBarHeight == maxHeight
    ensures t == Expanded ==> y == TopAppBarHeight
  {
    if t == Collapsed then maxHeight - TopAppBarHeight - navBarHeight else TopAppBarHeight
  }

  function ScreenOffsetSpec(from: ScreenState, to: ScreenState): (t: Tween)
    ensures t.delayMillis == 0
    ensures t.durationMillis == 450 <==> from == Expanded && to == Collapsed
    ensures t.durationMillis != 450 ==> t.durationMillis == 350
  {
    if from == Expanded && to == Collapsed then Tween(450, 0) else Tween(350, 0)
  }

  /** The screen collapses exactly when the cart hides. */
  lemma ScreenAndCartAgree(s: AppState)
    ensures ScreenTarget(s) == Collapsed <==> CartTarget(s) == Cart.Hidden
  {
  }

  // ----- The stateful holder -----

  class Shrine {
    const catalog: seq<ItemData>
    var activeCategory: Category
    var inventory: seq<ItemData>
    var showMenu: bool
    var showCart: bool
    var cartItems: seq<ItemData>

    function State(): AppState
      reads this
    {
      AppState(activeCategory, inventory, showMenu, showCart, cartItems)
    }

    ghost predicate Valid()
      reads this
    {
      Consistent(catalog, State())
    }

    /** `subList(0, 2)` needs a catalog of at least two items. */
    constructor (catalog: seq<ItemData>)
      requires |catalog| >= 2
      ensures this.catalog == catalog
      ensures State() == Initial(catalog) && Valid()
    {
      this.catalog := catalog;
      activeCategory := All;
      inventory := catalog;
      showMenu := false;
      showCart := false;
      cartItems := catalog[..2];
    }

    method OnToggle(show: bool)
      requires Valid()
      modifies this
      ensures Valid() && State() == Toggled(old(State()), show)
    {
      showMenu := show;
    }

    method OnNavigate(c: Category)
      requires Valid()
      modifies this
      ensures Valid() && State() == Navigated(catalog, old(State()), c)
    {
      activeCategory := c;
      inventory := if c == All then catalog else FilterCategory(catalog, activeCategory);
      showMenu := false;
    }

    method OnAddToCart(x: ItemData)
      requires Valid()
      modifies this
      ensures Valid() && State() == AddedToCart(old(State()), x)
    {
      cartItems := cartItems + [x];
    }

    method OnRemoveItem(indexToRemove: int)
      requires Valid()
      modifies this
      ensures Valid() && State() == RemovedFromCart(old(State()), indexToRemove)
    {
      cartItems := RemoveIndex(cartItems, indexToRemove);
    }

    method OnExpand(expand: bool)
      requires Valid()
      modifies this
      ensures Valid() && State() == CartExpanded(old(State()), expand)
    {
      showCart := expand;
    }
  }
}
