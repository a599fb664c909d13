# Shrine — a verified model of the catalog, cart and navigation logic

Shrine is a Jetpack Compose demo shop. It has a catalog screen, a cart panel
that slides up from the bottom, and a navigation backdrop. This project lifts
the integer and enum logic out of the composables into Dafny and proves what
that logic guarantees:

- **HomeScreen** (`HomeScreen.dfy`): the choice between the scrolling grid
  and the desktop grid. It also covers how the scrolling grid groups cards into
  pair and single columns (`HorizontalColumns`), how `itemsForColumn` deals
  items round-robin into the four desktop columns (`ItemsForColumn`), and each
  column's top padding.
- **ShrineApp** (`ShrineApp.dfy`): the five pieces of app state and the
  callbacks that reassign them. They are modelled twice:
  - as pure transition functions over `AppState`;
  - as a class `Shrine` whose methods are proved to follow those functions.
  
  This module also derives the screen-offset and cart targets from the state.
- **Cart** (`Cart.dfy`): the cart's target state (Hidden, Opened or Closed),
  its target geometry in each state, and the tween chosen for each transition.
- **ExpandedCart** (`ExpandedCart.dfy`): the item-count label, the integer
  subtotal, shipping, the rows with their remove indices, and the vendor text.
- **NavigationSurface** (`NavigationSurface.dfy`): the layout picked at each
  breakpoint, the left inset, the header's visibility targets and tweens, the
  ordered navigation entries and their staggered entrance.
- **ShrineData**, **Motion** and **Text** (`Data.dfy`, `Text.dfy`): the
  shared item record and enums, the duration and delay of a tween, and the
  upper-casing and decimal rendering used in labels.

The screen width, the navigation-bar height, `maxWidth` and `maxHeight` are
inputs. The large breakpoint `Breakpoints.largeWidth` is not part of this
model, so it is a parameter. Sizes are whole dp (see the note on the navigation-bar height under "## Left out"); alphas are 0 or 1. For an
animation only its target value and its tween (duration and delay) are
modelled.

Where the code and its description differ, the model follows the code:

- **`onNavigate`** (`app/src/main/java/com/google/adux/shrine/ShrineApp.kt:64-75`): the filter reads
  `activeCategory` after that variable has been assigned. Compose snapshot
  state is visible as soon as it is written, so this is the new category.
  `Navigated` filters by it.
- **`ItemData` and `Category`**: `Data.kt` still declares an older
  `HomeCardData` and a `Category` without `All`. The model declares
  `ItemData` and `Category` as the screens use them.
- **`Cart` parameters**: `Cart.kt` does not declare the `items` and
  `onRemoveItem` parameters that `ShrineApp.kt` passes to it. The removal is
  modelled as the caller performs it.

## Model

| member | source | states |
|---|---|---|
| HomeScreen.HomeLayout | app/src/main/java/com/google/adux/shrine/HomeScreen.kt:33-46 | A width at or above the large breakpoint gets the vertical grid; below it, the horizontal grid. The surface takes the theme's large shape exactly for the horizontal grid; otherwise it is rectangular. Elevation is 4 dp on desktop and 16 dp otherwise. |
| HomeScreen.ItemsForColumn | app/src/main/java/com/google/adux/shrine/HomeScreen.kt:243-257 | The stepped loop returns the items at exactly the column's dealt positions, in ascending position order. Requires a positive stride, which Kotlin's `step` demands. |
| HomeScreen.DealtBelowAscending | app/src/main/java/com/google/adux/shrine/HomeScreen.kt:250-254 | The positions a column collects are strictly ascending, so the original order is kept. |
| HomeScreen.ColumnMembership | app/src/main/java/com/google/adux/shrine/HomeScreen.kt:250-254 | For 0 <= c < m, position j is in column c if and only if 0 <= j < size and j mod m == c. |
| HomeScreen.ColumnsPartition | app/src/main/java/com/google/adux/shrine/HomeScreen.kt:204-216 | Columns 0..m-1 partition the list: every position is in the column of its remainder mod m and in no other column. |
| HomeScreen.ColumnProgression | app/src/main/java/com/google/adux/shrine/HomeScreen.kt:250-254 | Column c holds positions c, c+m, c+2m, …. It stops only when the next position would be at or past the end of the list. |
| HomeScreen.ColumnLength | app/src/main/java/com/google/adux/shrine/HomeScreen.kt:250-254 | No column holds more than ceil(size / m) items. |
| HomeScreen.HorizontalColumns | app/src/main/java/com/google/adux/shrine/HomeScreen.kt:130-173 | The loop terminates. Reading its columns top to bottom, left to right gives every index 0..size-1 exactly once, in order. A column is a pair exactly when it starts at a multiple of 3. A pair has a second card exactly when that index exists. Columns start at exactly the indices that are not 1 mod 3. |
| HomeScreen.TopPadding | app/src/main/java/com/google/adux/shrine/HomeScreen.kt:205-212 | Odd columns are padded 64+72 dp and even columns 64 dp. |
| HomeScreen.VerticalGrid | app/src/main/java/com/google/adux/shrine/HomeScreen.kt:204-216 | Returns four columns. Column i has TopPadding(i) and the items dealt to column i of 4. |
| ShrineApp.FilterCategory | app/src/main/java/com/google/adux/shrine/ShrineApp.kt:70-72 | The result holds exactly the items of the category, and is never longer than the input. |
| ShrineApp.FilterAppend | app/src/main/java/com/google/adux/shrine/ShrineApp.kt:70-72 | Filtering a concatenation gives the concatenation of the filtered parts, so catalog order is kept. |
| ShrineApp.FilterKeepsMatching | app/src/main/java/com/google/adux/shrine/ShrineApp.kt:70-72 | A list whose items all have the category is returned unchanged, so filtering is idempotent. |
| ShrineApp.InventoryFor | app/src/main/java/com/google/adux/shrine/ShrineApp.kt:67-73 | `All` shows the whole catalog. Any other category shows exactly the catalog items of that category. |
| ShrineApp.Initial | app/src/main/java/com/google/adux/shrine/ShrineApp.kt:28-34 | The initial state: category All, the whole catalog shown, menu and cart closed, and the first two catalog items in the cart. |
| ShrineApp.Toggled | app/src/main/java/com/google/adux/shrine/ShrineApp.kt:61-63 | `onToggle` sets `showMenu` to the requested value and changes no other field. |
| ShrineApp.Navigated | app/src/main/java/com/google/adux/shrine/ShrineApp.kt:64-75 | `onNavigate` selects the category, shows that category's inventory and closes the menu. The cart is untouched. |
| ShrineApp.AddedToCart | app/src/main/java/com/google/adux/shrine/ShrineApp.kt:83-85 | `onAddToCart` puts the item last, keeps the earlier cart items and changes no other field. |
| ShrineApp.RemovedFromCart | app/src/main/java/com/google/adux/shrine/ShrineApp.kt:105-109 | `onRemoveItem` deletes exactly the item at the index, or nothing when no item has it, and changes no other field. |
| ShrineApp.CartExpanded | app/src/main/java/com/google/adux/shrine/ShrineApp.kt:110-112 | `onExpand` sets `showCart` to the requested value and changes no other field. |
| ShrineApp.KeepOtherIndices | app/src/main/java/com/google/adux/shrine/ShrineApp.kt:106-108 | `filterIndexed` with `idx != indexToRemove` removes exactly the item at that index. An index with no item leaves the list unchanged. |
| ShrineApp.RemoveIndex | app/src/main/java/com/google/adux/shrine/ShrineApp.kt:106-108 | Removing index k of a list deletes exactly item k, leaving one item fewer. An index with no item leaves the list unchanged. |
| ShrineApp.InitialState | app/src/main/java/com/google/adux/shrine/ShrineApp.kt:28-34 | The initial state is consistent: the shown inventory is the inventory of its category (All), with menu and cart closed and the first two catalog items in the cart. |
| ShrineApp.CallbacksKeepConsistent | app/src/main/java/com/google/adux/shrine/ShrineApp.kt:61-111 | Every callback keeps the shown inventory equal to the inventory of the active category. |
| ShrineApp.ToggleEffect | app/src/main/java/com/google/adux/shrine/ShrineApp.kt:61-63 | `onToggle` sets `showMenu` and nothing else. The sheet collapses and the cart hides exactly when the menu is shown. Toggling back restores the state. |
| ShrineApp.NavigateEffect | app/src/main/java/com/google/adux/shrine/ShrineApp.kt:64-75 | Navigating selects the category, shows exactly its catalog items (all items for `All`) and closes the menu. The cart is untouched, and navigating there again is idempotent. |
| ShrineApp.NavigateKeepsCatalogOrder | app/src/main/java/com/google/adux/shrine/ShrineApp.kt:67-73 | For every category, the shown inventory keeps catalog order: the inventory of a catalog split in two is the first part's inventory followed by the second's. |
| ShrineApp.AddToCartEffect | app/src/main/java/com/google/adux/shrine/ShrineApp.kt:83-85 | Adding appends the item at the end and keeps the earlier items. The subtotal grows by the item's price. Nothing else changes. |
| ShrineApp.RemoveItemEffect | app/src/main/java/com/google/adux/shrine/ShrineApp.kt:105-109 | Removing index k deletes exactly item k, keeps the rest in order and lowers the subtotal by that item's price. An out-of-range k changes nothing. Only the cart changes. |
| ShrineApp.RemoveButtonRemovesItsRow | app/src/main/java/com/google/adux/shrine/ShrineApp.kt:105-109 | The index reported by row r's remove button removes row r's own item. |
| ShrineApp.CartTarget | app/src/main/java/com/google/adux/shrine/ShrineApp.kt:98-103 | The cart hides exactly while the menu is shown. It opens exactly while the menu is closed and `showCart` is set. |
| ShrineApp.CartControlsOpenAndClose | app/src/main/java/com/google/adux/shrine/ShrineApp.kt:110-112 | Tapping the collapsed row sets the cart target to Opened. The collapse button sets it to Closed. Only `showCart` changes. |
| ShrineApp.MenuHidesCart | app/src/main/java/com/google/adux/shrine/ShrineApp.kt:102 | Opening the menu moves the cart's x offset to the full width, off screen. |
| ShrineApp.ScreenTarget | app/src/main/java/com/google/adux/shrine/ShrineApp.kt:39-42 | The screen is Collapsed exactly when the menu is shown. |
| ShrineApp.ScreenOffset | app/src/main/java/com/google/adux/shrine/ShrineApp.kt:53-56 | The collapsed offset plus the 56 dp app bar plus the navigation bar equals maxHeight. Otherwise the offset is 56. |
| ShrineApp.ScreenOffsetSpec | app/src/main/java/com/google/adux/shrine/ShrineApp.kt:45-52 | The tween is 450 ms exactly for Expanded to Collapsed, and 350 ms otherwise, with no delay. |
| ShrineApp.ScreenAndCartAgree | app/src/main/java/com/google/adux/shrine/ShrineApp.kt:39-42 | The screen collapses exactly when the cart's target is Hidden. |
| ShrineApp.Shrine.constructor | app/src/main/java/com/google/adux/shrine/ShrineApp.kt:28-34 | The new object holds the initial state, and that state is consistent. |
| ShrineApp.Shrine.OnToggle | app/src/main/java/com/google/adux/shrine/ShrineApp.kt:61-63 | The new state is the toggle transition of the old one, and stays consistent. |
| ShrineApp.Shrine.OnNavigate | app/src/main/java/com/google/adux/shrine/ShrineApp.kt:64-75 | The new state is the navigate transition of the old one, and stays consistent. The filter reads the freshly assigned category. |
| ShrineApp.Shrine.OnAddToCart | app/src/main/java/com/google/adux/shrine/ShrineApp.kt:83-85 | The new state is the add-to-cart transition of the old one, and stays consistent. |
| ShrineApp.Shrine.OnRemoveItem | app/src/main/java/com/google/adux/shrine/ShrineApp.kt:105-109 | The new state is the remove transition of the old one, and stays consistent. |
| ShrineApp.Shrine.OnExpand | app/src/main/java/com/google/adux/shrine/ShrineApp.kt:110-112 | The new state is the expand transition of the old one, and stays consistent. |
| Cart.TargetState | app/src/main/java/com/google/adux/shrine/Cart.kt:47-50 | Hidden if and only if `hidden`. Opened if and only if not hidden and expanded. Closed if and only if neither flag is set. Hiding wins over expanding. |
| Cart.XOffset | app/src/main/java/com/google/adux/shrine/Cart.kt:66-75 | Hidden is at the full width, Opened at 0, and Closed 192 dp left of the right edge. |
| Cart.Height | app/src/main/java/com/google/adux/shrine/Cart.kt:87-89 | Opened is maxHeight tall; every other state is 56 dp. |
| Cart.CornerSize | app/src/main/java/com/google/adux/shrine/Cart.kt:101-103 | The corner is 0 exactly when Opened, and 24 dp otherwise. |
| Cart.CollapsedAlpha | app/src/main/java/com/google/adux/shrine/Cart.kt:115-117 | The collapsed row is transparent exactly when Opened, and opaque otherwise. |
| Cart.XOffsetSpec | app/src/main/java/com/google/adux/shrine/Cart.kt:54-65 | Closed↔Hidden takes 450 ms. Opened→Closed takes 433 ms after 67 ms. Every other pair takes 150 ms. |
| Cart.HeightSpec | app/src/main/java/com/google/adux/shrine/Cart.kt:79-86 | 283 ms exactly for Opened→Closed, and 500 ms otherwise, with no delay. |
| Cart.CornerSizeSpec | app/src/main/java/com/google/adux/shrine/Cart.kt:93-100 | Opened→Closed takes 433 ms after 67 ms. Every other pair takes 150 ms. |
| Cart.CollapsedAlphaSpec | app/src/main/java/com/google/adux/shrine/Cart.kt:107-114 | Opened→Closed takes 117 ms after 117 ms. Every other pair takes 150 ms. |
| Cart.ExpandRequest | app/src/main/java/com/google/adux/shrine/Cart.kt:128-143 | The collapsed row requests expand(true). The collapse button requests expand(false). |
| Cart.ClosedShowsCollapsedRow | app/src/main/java/com/google/adux/shrine/Cart.kt:148-170 | When Closed, the visible width equals the width of the collapsed row (padding, icon, two thumbnails, gaps). The visible height is a thumbnail plus its vertical padding. |
| Cart.XOffsetOrdered | app/src/main/java/com/google/adux/shrine/Cart.kt:66-75 | Offsets increase from Opened (0) to Closed to Hidden (the full width). |
| Cart.CloseFromOpenedTiming | app/src/main/java/com/google/adux/shrine/Cart.kt:52-117 | On Opened→Closed, the row's fade-in settles (234 ms) before the height (283 ms). The slide and the corner settle together at 500 ms, the length of every other height tween. |
| ExpandedCart.CountLabelReads | app/src/main/java/com/google/adux/shrine/ExpandedCart.kt:57 | The label reads "NO ITEMS" for 0, "1 ITEM" for 1, and the decimal count followed by " ITEMS" otherwise. |
| ExpandedCart.CountLabelShowsCount | app/src/main/java/com/google/adux/shrine/ExpandedCart.kt:39-57 | For two or more items, the label's leading digits read back as the item count. |
| ExpandedCart.CountLabel | app/src/main/java/com/google/adux/shrine/ExpandedCart.kt:57 | The header's count text is upper-cased (no lower-case letter) and at least six characters long. What it reads is stated in `CountLabelReads`. |
| ExpandedCart.Subtotal | app/src/main/java/com/google/adux/shrine/ExpandedCart.kt:124 | One item gives its price. Non-negative prices give a non-negative total. |
| ExpandedCart.SubtotalAppend | app/src/main/java/com/google/adux/shrine/ExpandedCart.kt:124 | The subtotal adds over concatenation. |
| ExpandedCart.SubtotalWithout | app/src/main/java/com/google/adux/shrine/ExpandedCart.kt:124 | Removing one item lowers the subtotal by exactly its price. |
| ExpandedCart.SubtotalPermutation | app/src/main/java/com/google/adux/shrine/ExpandedCart.kt:124 | Lists with the same items in any order have the same subtotal. |
| ExpandedCart.Shipping | app/src/main/java/com/google/adux/shrine/ExpandedCart.kt:125 | Shipping is 10 if and only if the cart is non-empty, and 0 if and only if it is empty. |
| ExpandedCart.Rows | app/src/main/java/com/google/adux/shrine/ExpandedCart.kt:66-73 | There is one row per item, in list order. Row k shows item k and reports index k. |
| ExpandedCart.VendorLabel | app/src/main/java/com/google/adux/shrine/ExpandedCart.kt:104 | The vendor text is the vendor's enum name upper-cased character by character, so it has the name's length and no lower-case letter. |
| Text.Upper | app/src/main/java/com/google/adux/shrine/ExpandedCart.kt:57 | `toUpperCase()` keeps the length and upper-cases each character; only lower-case letters change. |
| Text.UpperIdempotent | app/src/main/java/com/google/adux/shrine/ExpandedCart.kt:104 | Upper-casing twice gives the same result as upper-casing once. |
| Text.Decimal | app/src/main/java/com/google/adux/shrine/ExpandedCart.kt:57 | Rendering an `Int` in a template gives at least one digit, all decimal, with no leading zero. |
| Text.DecimalRoundTrip | app/src/main/java/com/google/adux/shrine/ExpandedCart.kt:57 | Reading the rendered digits back gives the number. |
| NavigationSurface.LayoutFor | app/src/main/java/com/google/adux/shrine/NavigationSurface.kt:49-60 | A 232 dp side panel at or above 1280. A top bar from 1024 up to but not including 1280. The collapsible menu below 1024. |
| NavigationSurface.NavHostHorizontal | app/src/main/java/com/google/adux/shrine/NavigationSurface.kt:287-291 | The item host is horizontal exactly in the top-bar layout. The collapsible menu's width test can never make it horizontal. |
| NavigationSurface.NavItemsVisible | app/src/main/java/com/google/adux/shrine/NavigationSurface.kt:80-84 | Top-bar items are always visible. Elsewhere they are visible exactly when the menu is in the foreground. |
| NavigationSurface.WithLeftInset | app/src/main/java/com/google/adux/shrine/NavigationSurface.kt:96-98 | Adds 12 when the width is strictly above 640, and nothing otherwise. |
| NavigationSurface.ToggleWidth | app/src/main/java/com/google/adux/shrine/NavigationSurface.kt:100 | The toggle target is 56 dp wider than the inset. |
| NavigationSurface.ActionSpacer | app/src/main/java/com/google/adux/shrine/NavigationSurface.kt:278-279 | 20 dp exactly when the width is above 640, and 12 dp exactly otherwise. |
| NavigationSurface.VisibilityOf | app/src/main/java/com/google/adux/shrine/NavigationSurface.kt:118 | Visible if and only if shown. |
| NavigationSurface.MenuTarget | app/src/main/java/com/google/adux/shrine/NavigationSurface.kt:178-179 | The menu icon, logo and "Menu" title target Visible exactly when the menu is in the foreground. |
| NavigationSurface.ShrineTitleTarget | app/src/main/java/com/google/adux/shrine/NavigationSurface.kt:226-227 | The "Shrine" title targets Visible exactly when the menu is not in the foreground. |
| NavigationSurface.ToggleRequest | app/src/main/java/com/google/adux/shrine/NavigationSurface.kt:104 | The toggle always asks for the opposite of the current foreground state. |
| NavigationSurface.LogoOffset | app/src/main/java/com/google/adux/shrine/NavigationSurface.kt:136 | The logo targets withLeftInset(24) when Gone, and withLeftInset(0) when Visible. |
| NavigationSurface.MenuIconAlpha | app/src/main/java/com/google/adux/shrine/NavigationSurface.kt:153 | The icon is transparent exactly when Visible. |
| NavigationSurface.MenuTitleOffset | app/src/main/java/com/google/adux/shrine/NavigationSurface.kt:197 | 20 dp when Gone. 0 exactly when Visible. |
| NavigationSurface.ShrineTitleOffset | app/src/main/java/com/google/adux/shrine/NavigationSurface.kt:245 | -10 dp when Gone. 0 exactly when Visible. |
| NavigationSurface.TitleAlpha | app/src/main/java/com/google/adux/shrine/NavigationSurface.kt:214 | A title is opaque exactly when Visible. |
| NavigationSurface.VisibilitySpec | app/src/main/java/com/google/adux/shrine/NavigationSurface.kt:124-133 | Gone→Visible takes 180 ms after 90 ms. Every other pair takes 120 ms with no delay. |
| NavigationSurface.TitlesAlternate | app/src/main/java/com/google/adux/shrine/NavigationSurface.kt:178-229 | The two titles' targets are always opposite. Exactly one title is opaque and at rest. |
| NavigationSurface.ToggleMovesLogo | app/src/main/java/com/google/adux/shrine/NavigationSurface.kt:104-137 | A toggle flips the menu target. The logo moves by 24 dp whatever the inset, and moves right exactly when the menu icon fades in. |
| NavigationSurface.MenuIconShown | app/src/main/java/com/google/adux/shrine/NavigationSurface.kt:156 | The menu icon is composed exactly when the menu's target is Gone. |
| NavigationSurface.MenuIconOffset | app/src/main/java/com/google/adux/shrine/NavigationSurface.kt:163 | The menu icon sits 12 dp in on screens wider than 640 dp, and at 0 otherwise. |
| NavigationSurface.LogoMakesRoomForIcon | app/src/main/java/com/google/adux/shrine/NavigationSurface.kt:136-174 | While the icon is composed, it targets opaque and the logo rests 24 dp to its right. With the menu open, the logo sits where the icon would be. |
| NavigationSurface.TitlesCrossFade | app/src/main/java/com/google/adux/shrine/NavigationSurface.kt:182-263 | On every toggle the leaving title starts at once and settles at 120 ms. The arriving one waits 90 ms and settles at 270 ms. |
| NavigationSurface.CategoryEntries | app/src/main/java/com/google/adux/shrine/NavigationSurface.kt:365-374 | There is one entry per category value, in enum order. Entry i is active exactly when value i is the active category. |
| NavigationSurface.NavEntries | app/src/main/java/com/google/adux/shrine/NavigationSurface.kt:365-390 | The first n entries are the category entries, followed by the divider at index n and Logout at index n+1. |
| NavigationSurface.ActiveEntryUnique | app/src/main/java/com/google/adux/shrine/NavigationSurface.kt:369 | With distinct enum values, at most one entry is active. One is active exactly when the active category is among the values. |
| NavigationSurface.NavItemLabel | app/src/main/java/com/google/adux/shrine/NavigationSurface.kt:428 | A category label is the enum name upper-cased character by character, so it has the name's length and no lower-case letter. |
| NavigationSurface.EnterSpec | app/src/main/java/com/google/adux/shrine/NavigationSurface.kt:440-445 | The entrance fade for index idx lasts 240 ms and starts after idx*15+60 ms. |
| NavigationSurface.ExitSpec | app/src/main/java/com/google/adux/shrine/NavigationSurface.kt:446-450 | The exit fade lasts 90 ms with no delay. |
| NavigationSurface.EntranceStaggered | app/src/main/java/com/google/adux/shrine/NavigationSurface.kt:437-455 | Entrance delays grow by exactly 15 ms per index, so every category starts before the divider and the divider before Logout. All entries exit together. |

## Left out

- **Compose rendering**: composition, modifiers, icons, images, ripples, scrolling, the scrim and the checkout-button animations are left out. These are UI toolkit calls with no integer logic of their own.
- **Animation interpolation**: only target values and the chosen tween are modelled. Easing curves, the frame clock and `AnimatedVisibility` are not.
- **Floating point**: the 10 % tax and the total `subtotal * (1 + tax) + shipping`, the fractional widths 0.66, 0.85, 0.8 and 0.5, and the `Dp` sizes are not modelled; alphas become 0 and 1.
- **External values**: `formatDollar` and `Breakpoints.largeWidth` are not part of this model. Prices are not formatted, and the large breakpoint is a parameter of `HomeScreen.HomeLayout`.
- **Environment inputs**: the screen width, window insets and `maxWidth` or `maxHeight` are inputs, not computed.
- ShrineApp.ScreenOffset: treats `navBarHeight` as a dp value. In the source it is `LocalWindowInsets.current.navigationBars.bottom`, a pixel count, and it is subtracted from a dp value (`ShrineApp.kt:54-55`). The model keeps the subtraction as written and does not model the unit mix.
- **`Category.values()` order**: Data.kt does not declare `All`, so the enum's order is unknown. `NavigationSurface.NavEntries` takes the value list as a parameter.
- **`PhotoOrientation`**: only `Portrait` is referenced. `Landscape` stands for every other value. The card `vertical` flag and content scale derived from it are not modelled.
- ExpandedCart.Subtotal: does not model 32-bit wrap-around of `sumBy`. The sum is over unbounded integers, which matches the source for any cart whose total fits in an `Int`.
- Text.Upper: models `toUpperCase()` as plain ASCII upper-casing, which assumes a default locale with ASCII casing rules. Kotlin's `toUpperCase()` uses the default locale. Under a Turkish or Azerbaijani locale, `i` becomes a dotted capital I, so the labels proved in `ExpandedCart.CountLabelReads`, `ExpandedCart.VendorLabel` and `NavigationSurface.NavItemLabel` hold only under that assumption. Non-ASCII characters are left unchanged.
- **Item titles, photos and vendor logos**: these are display resources and are not modelled.
- **Other files**: `Playground.kt`, `MainActivity.kt`, the theme files and the earlier `com/example/emptycompose` snapshot are not part of this model.
