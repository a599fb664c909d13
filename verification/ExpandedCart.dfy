/** The expanded cart's header, item rows and totals (shrine/ExpandedCart.kt).
    The tax line and the grand total are floating point and are not modelled. */
module ExpandedCart {
  import opened ShrineData
  import opened Text

  /** The header's item count: "No" or the number, then "item", plural unless
      the count is one, all upper-cased. */
  function CountLabel(size: nat): (text: string)
    ensures |text| >= 6
    ensures forall i :: 0 <= i < |text| ==> !IsLower(text[i])
  {
    Upper((if size == 0 then "No" else Decimal(size)) + " item" + (if size != 1 then "s" else ""))
  }

  lemma CountLabelEmpty()
    ensures CountLabel(0) == "NO ITEMS"
  {
    assert CountLabel(0) == Upper("No items");
    var u := Upper("No items");
    assert forall i :: 0 <= i < |u| ==> u[i] == "NO ITEMS"[i];
  }

  lemma CountLabelSingle()
    ensures CountLabel(1) == "1 ITEM"
  {
    assert Decimal(1) == "1";
    assert CountLabel(1) == Upper("1 item");
    var u := Upper("1 item");
    assert forall i :: 0 <= i < |u| ==> u[i] == "1 ITEM"[i];
  }

  lemma UpperItems()
    ensures Upper(" items") == " ITEMS"
  {
    var u := Upper(" items");
    assert forall i :: 0 <= i < |u| ==> u[i] == " ITEMS"[i];
  }

  lemma CountLabelPlural(size: nat)
    requires size >= 2
    ensures CountLabel(size) == Decimal(size) + " ITEMS"
  {
    var d := Decimal(size);
    assert d + " item" + "s" == d + " items";
    assert CountLabel(size) == Upper(d + " items");
    UpperAppend(d, " items");
    UpperNoLower(d);
    UpperItems();
  }

  /** The header reads "NO ITEMS", "1 ITEM" or the count followed by " ITEMS". */
  lemma CountLabelReads(size: nat)
    ensures size == 0 ==> CountLabel(size) == "NO ITEMS"
    ensures size == 1 ==> CountLabel(size) == "1 ITEM"
    ensures size >= 2 ==> CountLabel(size) == Decimal(size) + " ITEMS"
  {
    if size == 0 {
      CountLabelEmpty();
    } else if size == 1 {
      CountLabelSingle();
    } else {
      CountLabelPlural(size);
    }
  }

  /** A count of two or more is shown so that it reads back as the count. */
  lemma CountLabelShowsCount(size: nat)
    requires size >= 2
    ensures var d := Decimal(size);
            |CountLabel(size)| == |d| + 6 && ParseDecimal(CountLabel(size)[..|d|]) == size
  {
    CountLabelReads(size);
    var d := Decimal(size);
    assert CountLabel(size)[..|d|] == d;
    DecimalRoundTrip(size);
  }

  /** `sumBy { it.price }`: the prices added up from the first item on. */
  function Subtotal(items: seq<ItemData>): (total: int)
    ensures |items| == 1 ==> total == items[0].price
    ensures (forall k :: 0 <= k < |items| ==> items[k].price >= 0) ==> total >= 0
  {
    if items == [] then 0 else items[0].price + Subtotal(items[1..])
  }

  /** The subtotal of a list is the sum of the subtotals of its parts. */
  lemma {:induction false} SubtotalAppend(a: seq<ItemData>, b: seq<ItemData>)
    ensures Subtotal(a + b) == Subtotal(a) + Subtotal(b)
  {
    if a != [] {
      assert (a + b)[1..] == a[1..] + b;
      SubtotalAppend(a[1..], b);
    } else {
      assert a + b == b;
    }
  }

  /** Taking one item out of a list lowers its subtotal by that item's price. */
  lemma {:induction false} SubtotalWithout(b: seq<ItemData>, k: nat)
    requires k < |b|
    ensures Subtotal(b) == b[k].price + Subtotal(b[..k] + b[k + 1..])
  {
    var p, x, q := b[..k], b[k], b[k + 1..];
    assert b == p + ([x] + q);
    SubtotalAppend(p, [x] + q);
    SubtotalAppend([x], q);
    SubtotalAppend(p, q);
  }

  /** Removing the same element from two lists with equal multisets leaves equal multisets. */
  lemma MultisetWithout(a: seq<ItemData>, b: seq<ItemData>, k: nat)
    requires |a| > 0 && k < |b| && b[k] == a[0]
    requires multiset(a) == multiset(b)
    ensures multiset(a[1..]) == multiset(b[..k] + b[k + 1..])
  {
    var x := a[0];
    assert a == [x] + a[1..];
    assert b == b[..k] + [x] + b[k + 1..];
    assert multiset(a) == multiset{x} + multiset(a[1..]);
    assert multiset(b) == multiset(b[..k]) + multiset{x} + multiset(b[k + 1..]);
    var rest := multiset(b[..k]) + multiset(b[k + 1..]);
    assert multiset(b[..k] + b[k + 1..]) == rest;
    assert multiset{x} + multiset(a[1..]) == multiset{x} + rest;
    assert multiset(a[1..]) == multiset{x} + multiset(a[1..]) - multiset{x};
    assert rest == multiset{x} + rest - multiset{x};
  }

  /** The subtotal does not depend on the order of the items. */
  lemma {:induction false} SubtotalPermutation(a: seq<ItemData>, b: seq<ItemData>)
    requires multiset(a) == multiset(b)
    ensures Subtotal(a) == Subtotal(b)
    decreases |a|
  {
    if a == [] {
      assert |b| == |multiset(b)| == 0;
    } else {
      assert a[0] in multiset(b);
      var k :| 0 <= k < |b| && b[k] == a[0];
      MultisetWithout(a, b, k);
      SubtotalPermutation(a[1..], b[..k] + b[k + 1..]);
      SubtotalWithout(b, k);
    }
  }

  /** Flat shipping charge for a non-empty cart. */
  function Shipping(items: seq<ItemData>): (fee: int)
    ensures fee == 10 <==> |items| > 0
    ensures fee == 0 <==> |items| == 0
  {
    if |items| > 0 then 10 else 0
  }

  /** One row of the item list: the item, and the index its remove button reports. */
  datatype CartRow = CartRow(removeIndex: nat, item: ItemData)

  function RowsFrom(items: seq<ItemData>, start: nat): (rows: seq<CartRow>)
    ensures |rows| == |items|
    ensures forall k :: 0 <= k < |rows| ==> rows[k] == CartRow(start + k, items[k])
  {
    if items == [] then [] else [CartRow(start, items[0])] + RowsFrom(items[1..], start + 1)
  }

  /** `forEachIndexed`: a row per item, in list order, each reporting its own index. */
  function Rows(items: seq<ItemData>): (rows: seq<CartRow>)
    ensures |rows| == |items|
    ensures forall k :: 0 <= k < |rows| ==> rows[k].item == items[k] && rows[k].removeIndex == k
  {
    RowsFrom(items, 0)
  }

  /** The vendor line: the vendor's enum name in capitals. */
  function VendorLabel(item: ItemData): (text: string)
    ensures |text| == |VendorName(item.vendor)|
    ensures forall i :: 0 <= i < |text| ==> text[i] == UpperChar(VendorName(item.vendor)[i])
    ensures forall i :: 0 <= i < |text| ==> !IsLower(text[i])
  {
    Upper(VendorName(item.vendor))
  }
}
