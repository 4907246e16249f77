/**
 * Line and order amounts: a line costs (unit price - discount) x quantity,
 * a missing discount counting as 0, and an order's total is the sum of its lines.
 */
module Pricing {
  import opened Wrappers
  import opened Orders

  function DiscountOrZero(d: Option<int>): int {
    match d
    case Some(v) => v
    case None => 0
  }

  /** `(unit_price - (discount || 0)) * quantity`. */
  function LineAmount(item: OrderItem): int {
    (item.unitPrice - DiscountOrZero(item.discount)) * item.quantity
  }

  /** `calculateTotalAmount`: the sum of the line amounts, 0 for no items. */
  function Total(items: seq<OrderItem>): int {
    if items == [] then 0 else LineAmount(items[0]) + Total(items[1..])
  }

  /** The list without position `i` (`filter((_, j) => j !== i)`); other indices change nothing. */
  function RemoveAt(items: seq<OrderItem>, i: int): (r: seq<OrderItem>)
    ensures 0 <= i < |items| ==> |r| == |items| - 1
    ensures 0 <= i < |items| ==> forall j :: 0 <= j < i ==> r[j] == items[j]
    ensures 0 <= i < |items| ==> forall j :: i <= j < |r| ==> r[j] == items[j + 1]
    ensures !(0 <= i < |items|) ==> r == items
  {
    if 0 <= i < |items| then items[..i] + items[i + 1..] else items
  }

  lemma {:induction false} TotalAppend(a: seq<OrderItem>, b: seq<OrderItem>)
    ensures Total(a + b) == Total(a) + Total(b)
  {
    if a == [] {
      assert a + b == b;
    } else {
      TotalAppend(a[1..], b);
      assert (a + b)[1..] == a[1..] + b;
    }
  }

  /** Appending a line adds exactly its amount to the total. */
  lemma TotalSnoc(items: seq<OrderItem>, item: OrderItem)
    ensures Total(items + [item]) == Total(items) + LineAmount(item)
  {
    TotalAppend(items, [item]);
  }

  /** Removing a line takes exactly its amount off the total. */
  lemma TotalRemoveAt(items: seq<OrderItem>, i: int)
    requires 0 <= i < |items|
    ensures Total(RemoveAt(items, i)) == Total(items) - LineAmount(items[i])
  {
    assert items == items[..i] + items[i..];
    TotalAppend(items[..i], items[i..]);
    TotalAppend(items[..i], items[i + 1..]);
    assert items[i..] == [items[i]] + items[i + 1..];
    TotalAppend([items[i]], items[i + 1..]);
  }

  /** A line without a discount costs unit price x quantity. */
  lemma MissingDiscountCountsAsZero(item: OrderItem)
    requires item.discount.None?
    ensures LineAmount(item) == item.unitPrice * item.quantity
  {
  }

  /**
   * The worked total: a refill line of 3 at 10000 with discount 2000 and a
   * plain line of 2 at 5000 come to (10000 - 2000) * 3 + 5000 * 2 = 34000.
   */
  lemma TotalExample()
    ensures Total([OrderItem("Refill", true, 3, 10000, Some(2000)), OrderItem("Gallon", false, 2, 5000, Some(0))]) == 34000
  {
    var items := [OrderItem("Refill", true, 3, 10000, Some(2000)), OrderItem("Gallon", false, 2, 5000, Some(0))];
    assert items[1..][1..] == [];
  }
}
