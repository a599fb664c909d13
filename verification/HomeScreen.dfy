/** The catalog screen (shrine/HomeScreen.kt): the choice between the
    scrolling row of card columns and the four-column desktop grid, which
    item positions each column shows, and the columns' top padding. Cards are
    identified by their position in the item list. */
module HomeScreen {
  import opened ShrineData

  // ----- Desktop choice -----

  datatype GridKind = Horizontal | Vertical

  /** The surface behind the grid: which grid, whether it takes the theme's
      large shape (otherwise it is a plain rectangle), and its elevation in dp. */
  datatype HomeSurface = HomeSurface(grid: GridKind, themedShape: bool, elevation: nat)

  /** At or above the large breakpoint the screen is a desktop: a rectangular,
      low surface holding the vertical grid; below it a raised surface in the
      theme's large shape holding the horizontal grid. */
  function HomeLayout(screenWidth: int, largeWidth: int): (s: HomeSurface)
    ensures s.grid == Vertical <==> screenWidth >= largeWidth
    ensures s.themedShape <==> s.grid == Horizontal
    ensures s.elevation == if s.grid == Vertical then 4 else 16
  {
    var onDesktop := screenWidth >= largeWidth;
    HomeSurface(if onDesktop then Vertical else Horizontal, !onDesktop, if onDesktop then 4 else 16)
  }

  // ----- Arithmetic on Euclidean remainders -----

  /** The quotient and remainder of a division are determined by the
      equation x == q * m + r with 0 <= r < m. */
  lemma DivModUnique(x: int, m: int, q: int, r: int)
    requires m > 0 && 0 <= r < m && x == q * m + r
    ensures x % m == r && x / m == q
  {
    var d := q - x / m;
    assert d * m == x % m - r;
    MulSign(d, m);
  }

  /** A non-zero multiple of a positive m is at least m away from zero. */
  lemma MulSign(d: int, m: int)
    requires m > 0
    ensures d >= 1 ==> d * m >= m
    ensures d <= -1 ==> d * m <= -m
  {
  }

  /** With 0 <= c < m, position j lies c past a multiple of m exactly when
      its remainder modulo m is c. */
  lemma ModShift(j: int, c: int, m: int)
    requires 0 <= c < m
    ensures (j - c) % m == 0 <==> j % m == c
  {
    if j % m == c {
      DivModUnique(j - c, m, j / m, 0);
    }
    if (j - c) % m == 0 {
      DivModUnique(j, m, (j - c) / m, c);
    }
  }

  lemma NextMultiple(i: int, m: int)
    requires m > 0 && i % m == 0
    ensures (i + m) % m == 0
  {
    DivModUnique(i + m, m, i / m + 1, 0);
  }

  /** Strictly between two neighbouring multiples of m there is no multiple of m. */
  lemma NoMultipleInGap(i: int, x: int, m: int)
    requires m > 0 && i % m == 0 && i < x < i + m
    ensures x % m != 0
  {
    DivModUnique(x, m, i / m, x - i);
  }

  /** Of two multiples of m, the larger is at least m above the smaller. */
  lemma MultipleAbove(i: int, x: int, m: int)
    requires m > 0 && i % m == 0 && x % m == 0 && i < x
    ensures i + m <= x
  {
    var d := x / m - i / m;
    assert x - i == d * m;
    MulSign(d, m);
  }

  // ----- Vertical grid: itemsForColumn -----

  /** Position j of a list of n items is dealt to the column with offset c
      and stride m when j == i + c for an index i of the list that is a
      multiple of m. */
  predicate Dealt(j: int, n: int, c: int, m: int)
    requires m > 0
  {
    0 <= j < n && 0 <= j - c < n && (j - c) % m == 0
  }

  /** The positions below k dealt to the column, in ascending order. */
  function DealtBelow(k: nat, n: int, c: int, m: int): (ps: seq<nat>)
    requires m > 0
    ensures forall t :: 0 <= t < |ps| ==> ps[t] < k && Dealt(ps[t], n, c, m)
  {
    if k == 0 then [] else DealtBelow(k - 1, n, c, m) + (if Dealt(k - 1, n, c, m) then [k - 1] else [])
  }

  /** Every dealt position below k is listed. */
  lemma {:induction false} DealtBelowComplete(k: nat, n: int, c: int, m: int)
    requires m > 0
    ensures forall j :: 0 <= j < k && Dealt(j, n, c, m) ==> j in DealtBelow(k, n, c, m)
  {
    if k > 0 {
      DealtBelowComplete(k - 1, n, c, m);
      var prev := DealtBelow(k - 1, n, c, m);
      assert DealtBelow(k, n, c, m) == prev + (if Dealt(k - 1, n, c, m) then [k - 1] else []);
      forall j | 0 <= j < k && Dealt(j, n, c, m)
        ensures j in DealtBelow(k, n, c, m)
      {
        if j < k - 1 {
          assert j in prev;
        }
      }
    }
  }

  /** The dealt positions are listed in strictly ascending order. */
  lemma {:induction false} DealtBelowAscending(k: nat, n: int, c: int, m: int)
    requires m > 0
    ensures forall t, u :: 0 <= t < u < |DealtBelow(k, n, c, m)| ==> DealtBelow(k, n, c, m)[t] < DealtBelow(k, n, c, m)[u]
  {
    if k > 0 {
      DealtBelowAscending(k - 1, n, c, m);
      var prev := DealtBelow(k - 1, n, c, m);
      var ps := prev + (if Dealt(k - 1, n, c, m) then [k - 1] else []);
      assert DealtBelow(k, n, c, m) == ps;
      forall t, u | 0 <= t < u < |ps| ensures ps[t] < ps[u] {
        assert ps[t] == prev[t];
        if u < |prev| {
          assert ps[u] == prev[u] && prev[t] < prev[u];
        } else {
          assert ps[u] == k - 1 && prev[t] < k - 1;
        }
      }
    }
  }

  /** The positions of a list of n items that column c of m shows. */
  function ColumnPositions(n: nat, c: int, m: int): (ps: seq<nat>)
    requires m > 0
  {
    DealtBelow(n, n, c, m)
  }

  /** The items at the given positions, in the positions' order. */
  function Pick<T>(items: seq<T>, ps: seq<nat>): (r: seq<T>)
    requires forall t :: 0 <= t < |ps| ==> ps[t] < |items|
    ensures |r| == |ps|
    ensures forall t :: 0 <= t < |r| ==> r[t] == items[ps[t]]
  {
    if ps == [] then [] else Pick(items, ps[..|ps| - 1]) + [items[ps[|ps| - 1]]]
  }

  lemma PickAppend<T>(items: seq<T>, ps: seq<nat>, p: nat)
    requires forall t :: 0 <= t < |ps| ==> ps[t] < |items|
    requires p < |items|
    ensures Pick(items, ps + [p]) == Pick(items, ps) + [items[p]]
  {
    assert (ps + [p])[..|ps|] == ps;
  }

  function Clamp(x: int, n: nat): nat
  {
    if x < 0 then 0 else if x > n then n else x
  }

  lemma {:induction false} DealtBelowSkip(a: nat, b: nat, n: int, c: int, m: int)
    requires m > 0 && a <= b
    requires forall j :: a <= j < b ==> !Dealt(j, n, c, m)
    ensures DealtBelow(b, n, c, m) == DealtBelow(a, n, c, m)
    decreases b
  {
    if a < b {
      DealtBelowSkip(a, b - 1, n, c, m);
    }
  }

  /** Before the loop nothing below the first candidate position is dealt. */
  lemma ColumnStart(n: nat, c: int, m: int)
    requires m > 0
    ensures DealtBelow(Clamp(c, n), n, c, m) == []
  {
    DealtBelowSkip(0, Clamp(c, n), n, c, m);
  }

  /** One round of the stepped loop adds position i + c, if it is a position
      of the list, and nothing else. */
  lemma ColumnStep(n: nat, c: int, m: int, i: int)
    requires m > 0 && 0 <= i < n && i % m == 0
    ensures DealtBelow(Clamp(i + m + c, n), n, c, m)
            == DealtBelow(Clamp(i + c, n), n, c, m) + (if 0 <= i + c < n then [i + c] else [])
  {
    var a, b := Clamp(i + c, n), Clamp(i + m + c, n);
    forall j | a <= j < b && j != i + c
      ensures !Dealt(j, n, c, m)
    {
      if i < j - c < i + m {
        NoMultipleInGap(i, j - c, m);
      }
    }
    if 0 <= i + c < n {
      assert Dealt(i + c, n, c, m);
      DealtBelowSkip(a + 1, b, n, c, m);
    } else {
      DealtBelowSkip(a, b, n, c, m);
    }
  }

  /** Once the loop index passes the end of the list no further position is dealt. */
  lemma ColumnDone(n: nat, c: int, m: int, i: int)
    requires m > 0 && i >= n
    ensures DealtBelow(Clamp(i + c, n), n, c, m) == ColumnPositions(n, c, m)
  {
    DealtBelowSkip(Clamp(i + c, n), n, n, c, m);
  }

  /** `itemsForColumn`: for every index i of the list stepping by maxColumns,
      the item at i + idx if there is one. The stride must be positive, as
      Kotlin's `step` rejects any other. */
  method ItemsForColumn<T>(items: seq<T>, idx: int, maxColumns: int) returns (column: seq<T>)
    requires maxColumns > 0
    ensures column == Pick(items, ColumnPositions(|items|, idx, maxColumns))
  {
    var n := |items|;
    column := [];
    ColumnStart(n, idx, maxColumns);
    var i := 0;
    assert column == Pick(items, DealtBelow(Clamp(i + idx, n), n, idx, maxColumns));
    while i < n
      invariant i >= 0 && i % maxColumns == 0
      invariant column == Pick(items, DealtBelow(Clamp(i + idx, n), n, idx, maxColumns))
    {
      ghost var done := DealtBelow(Clamp(i + idx, n), n, idx, maxColumns);
      ghost var next := DealtBelow(Clamp(i + maxColumns + idx, n), n, idx, maxColumns);
      ColumnStep(n, idx, maxColumns, i);
      if 0 <= i + idx < n {
        PickAppend(items, done, i + idx);
        column := column + [items[i + idx]];
        assert column == Pick(items, next);
      }
      NextMultiple(i, maxColumns);
      i := i + maxColumns;
      assert column == Pick(items, DealtBelow(Clamp(i + idx, n), n, idx, maxColumns));
    }
    ColumnDone(n, idx, maxColumns, i);
  }

  /** For the columns 0 .. m-1, column c shows exactly the positions whose
      remainder modulo m is c. */
  lemma ColumnMembership(n: nat, c: int, m: int, j: int)
    requires 0 <= c < m
    ensures j in ColumnPositions(n, c, m) <==> 0 <= j < n && j % m == c
  {
    ModShift(j, c, m);
    DealtBelowComplete(n, n, c, m);
    if 0 <= j && j % m == c {
      DivModUnique(j, m, j / m, c);
    }
  }

  /** Columns 0 .. m-1 partition the list: every position appears in the
      column given by its remainder modulo m and in no other. */
  lemma ColumnsPartition(n: nat, m: int, j: int)
    requires m > 0 && 0 <= j < n
    ensures j in ColumnPositions(n, j % m, m)
    ensures forall c :: 0 <= c < m && c != j % m ==> j !in ColumnPositions(n, c, m)
  {
    ColumnMembership(n, j % m, m, j);
    forall c | 0 <= c < m && c != j % m
      ensures j !in ColumnPositions(n, c, m)
    {
      ColumnMembership(n, c, m, j);
    }
  }

  /** Position c + L * m, when it is a position of the list, goes to column c. */
  lemma OnProgression(j: int, n: int, c: int, m: int, L: nat)
    requires 0 <= c < m && 0 <= j < n
    ensures j == c + L * m ==> Dealt(j, n, c, m)
  {
    if j == c + L * m {
      DivModUnique(j - c, m, L, 0);
    }
  }

  /** A dealt position above every listed one, and not beyond the next
      candidate, is that candidate. */
  lemma ProgressionHit(j: int, n: int, c: int, m: int, L: nat, last: int)
    requires 0 <= c < m && Dealt(j, n, c, m) && j <= c + L * m
    requires L > 0 ==> last == c + (L - 1) * m && last < j
    ensures j == c + L * m && j + 1 <= c + (L + 1) * m
  {
    if L > 0 {
      DivModUnique((L - 1) * m, m, L - 1, 0);
      MultipleAbove((L - 1) * m, j - c, m);
    }
  }

  lemma {:induction false} ProgressionBelow(k: nat, n: nat, c: int, m: int)
    requires 0 <= c < m && k <= n
    ensures forall t :: 0 <= t < |DealtBelow(k, n, c, m)| ==> DealtBelow(k, n, c, m)[t] == c + t * m
    ensures k <= c + |DealtBelow(k, n, c, m)| * m
  {
    if k > 0 {
      ProgressionBelow(k - 1, n, c, m);
      var j := k - 1;
      var prev := DealtBelow(j, n, c, m);
      var L := |prev|;
      if Dealt(j, n, c, m) {
        assert DealtBelow(k, n, c, m) == prev + [j];
        ProgressionHit(j, n, c, m, L, if L > 0 then prev[L - 1] else 0);
      } else {
        assert DealtBelow(k, n, c, m) == prev;
        OnProgression(j, n, c, m, L);
      }
    }
  }

  /** For the columns 0 .. m-1, column c shows positions c, c + m, c + 2m, ...
      and stops only where the next one would fall off the list. */
  lemma ColumnProgression(n: nat, c: int, m: int)
    requires 0 <= c < m
    ensures var ps := ColumnPositions(n, c, m);
            (forall t :: 0 <= t < |ps| ==> ps[t] == c + t * m) && n <= c + |ps| * m
  {
    ProgressionBelow(n, n, c, m);
  }

  /** No column of m holds more than ceil(n / m) of n items. */
  lemma ColumnLength(n: nat, c: int, m: int)
    requires 0 <= c < m
    ensures |ColumnPositions(n, c, m)| <= (n + m - 1) / m
  {
    var ps := ColumnPositions(n, c, m);
    var L := |ps|;
    ColumnProgression(n, c, m);
    if L > 0 {
      assert ps[L - 1] == c + (L - 1) * m < n;
      var X := n + m - 1;
      var d := L - X / m;
      assert L * m <= X;
      assert d * m == L * m - (X / m) * m;
      MulSign(d, m);
    }
  }

  // ----- Horizontal grid: pairs and singles -----

  /** A column of the scrolling row: a pair of cards (the second only if the
      list has one more item) or a single tall card, by item position. */
  datatype GridColumn = Pair(top: nat, bottom: Option<nat>) | Single(index: nat)
  {
    function Start(): nat
    {
      if Pair? then top else index
    }

    /** Positions of the cards the column shows, top to bottom. */
    function Cells(): seq<nat>
    {
      match this
      case Pair(t, None) => [t]
      case Pair(t, Some(b)) => [t, b]
      case Single(i) => [i]
    }
  }

  function Flatten(cols: seq<GridColumn>): seq<nat>
  {
    if cols == [] then [] else Flatten(cols[..|cols| - 1]) + cols[|cols| - 1].Cells()
  }

  function Starts(cols: seq<GridColumn>): (r: seq<nat>)
    ensures |r| == |cols| && forall k :: 0 <= k < |cols| ==> r[k] == cols[k].Start()
  {
    seq(|cols|, k requires 0 <= k < |cols| => cols[k].Start())
  }

  /** 0, 1, ..., n - 1. */
  function Range(n: nat): (r: seq<nat>)
    ensures |r| == n && forall k :: 0 <= k < n ==> r[k] == k
  {
    if n == 0 then [] else Range(n - 1) + [n - 1]
  }

  lemma FlattenAppend(cols: seq<GridColumn>, g: GridColumn)
    ensures Flatten(cols + [g]) == Flatten(cols) + g.Cells()
  {
    assert (cols + [g])[..|cols|] == cols;
  }

  /** What the columns emitted before index `idx` satisfy: they cover the
      positions below `idx` in order, pairs open exactly at multiples of
      three, a pair has a second card exactly when the list does, and the
      columns start exactly at the positions that are not 1 modulo 3. */
  ghost predicate GroupedBelow(cols: seq<GridColumn>, n: nat, idx: nat)
  {
    && idx <= n + 1 && idx % 3 != 1
    && Flatten(cols) == Range(if idx <= n then idx else n)
    && (forall k :: 0 <= k < |cols| ==> cols[k].Start() < idx)
    && (forall k :: 0 <= k < |cols| ==> (cols[k].Pair? <==> cols[k].Start() % 3 == 0))
    && (forall k :: 0 <= k < |cols| && cols[k].Pair? ==> (cols[k].bottom.Some? <==> cols[k].top + 1 < n))
    && (forall j :: 0 <= j < idx ==> (j in Starts(cols) <==> j % 3 != 1))
  }

  /** The column the loop emits at `idx`. */
  function GroupAt(idx: nat, n: nat): GridColumn
  {
    if idx % 3 == 0 then Pair(idx, if idx + 1 < n then Some(idx + 1) else None) else Single(idx)
  }

  /** One round of the loop keeps `GroupedBelow`. */
  lemma GroupStep(cols: seq<GridColumn>, n: nat, idx: nat)
    requires GroupedBelow(cols, n, idx) && idx < n
    ensures GroupedBelow(cols + [GroupAt(idx, n)], n, idx + if idx % 3 == 0 then 2 else 1)
  {
    var g := GroupAt(idx, n);
    var next := idx + if idx % 3 == 0 then 2 else 1;
    var cols' := cols + [g];
    FlattenAppend(cols, g);
    assert Flatten(cols') == Range(if next <= n then next else n);
    assert next % 3 != 1;
    assert Starts(cols') == Starts(cols) + [idx];
    forall j | 0 <= j < next
      ensures j in Starts(cols') <==> j % 3 != 1
    {
      if j == idx + 1 {
        assert j % 3 == 1;
        assert forall k :: 0 <= k < |cols'| ==> cols'[k].Start() <= idx;
      }
    }
  }

  /** The `HorizontalGrid` loop: at a position that is a multiple of three it
      opens a pair column with that item and the next one, if any, and moves
      on by two; elsewhere it emits a single tall card and moves on by one. */
  method HorizontalColumns<T>(items: seq<T>) returns (cols: seq<GridColumn>)
    ensures Flatten(cols) == Range(|items|)
    ensures forall k :: 0 <= k < |cols| ==> (cols[k].Pair? <==> cols[k].Start() % 3 == 0)
    ensures forall k :: 0 <= k < |cols| && cols[k].Pair? ==> (cols[k].bottom.Some? <==> cols[k].top + 1 < |items|)
    ensures forall j :: 0 <= j < |items| ==> (j in Starts(cols) <==> j % 3 != 1)
  {
    var n := |items|;
    cols := [];
    var idx := 0;
    while idx < n
      invariant GroupedBelow(cols, n, idx)
    {
      GroupStep(cols, n, idx);
      cols := cols + [GroupAt(idx, n)];
      idx := idx + if idx % 3 == 0 then 2 else 1;
    }
  }

  // ----- Vertical grid -----

  const ItemColumns: int := 4

  /** Odd-numbered columns start lower, giving the staggered look. */
  function TopPadding(column: int): (dp: int)
    ensures column % 2 == 1 ==> dp == 64 + 72
    ensures column % 2 == 0 ==> dp == 64
  {
    var basePadding := 64;
    if column % 2 != 0 then basePadding + 72 else basePadding
  }

  datatype VerticalColumn = VerticalColumn(topPadding: int, items: seq<ItemData>)

  /** The desktop grid: four columns, column i padded by `TopPadding(i)` and
      showing `itemsForColumn(items, i, 4)`. */
  method VerticalGrid(items: seq<ItemData>) returns (columns: seq<VerticalColumn>)
    ensures |columns| == ItemColumns
    ensures forall i :: 0 <= i < ItemColumns ==>
              columns[i].topPadding == TopPadding(i) && columns[i].items == Pick(items, ColumnPositions(|items|, i, ItemColumns))
  {
    columns := [];
    for i := 0 to ItemColumns
      invariant |columns| == i
      invariant forall k :: 0 <= k < i ==>
                  columns[k].topPadding == TopPadding(k) && columns[k].items == Pick(items, ColumnPositions(|items|, k, ItemColumns))
    {
      var cards := ItemsForColumn(items, i, ItemColumns);
      columns := columns + [VerticalColumn(TopPadding(i), cards)];
    }
  }
}
