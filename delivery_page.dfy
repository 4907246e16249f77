/**
 * The sales delivery view: orders filtered by delivery status, the filter
 * buttons' counts, the status icon and the delivered-on notice.
 */
module DeliveryPage {
  import opened Wrappers
  import opened Seqs
  import opened Orders

  const FilterAll: string := "all"

  /** The orders listed under filter `filter`. */
  function Shown(orders: seq<Order>, filter: string): seq<Order> {
    if filter == FilterAll then orders else HavingStatus(orders, filter)
  }

  /** The number on the filter button: all orders, or those of that status. */
  function ButtonCount(orders: seq<Order>, filter: string): nat {
    if filter == FilterAll then |orders| else Count(orders, HasStatus(filter))
  }

  /**
   * "all" lists every order; any other filter lists exactly the orders of that
   * status, in their original order.
   */
  lemma ShownSpec(orders: seq<Order>, filter: string, o: Order)
    ensures filter == FilterAll ==> Shown(orders, filter) == orders
    ensures filter != FilterAll ==> (o in Shown(orders, filter) <==> o in orders && o.status == filter)
    ensures IsSubsequence(Shown(orders, filter), orders)
  {
    FilterMembership(orders, HasStatus(filter), o);
    FilterIsSubsequence(orders, HasStatus(filter));
    if filter == FilterAll {
      SubsequenceRefl(orders);
    }
  }

  /** Each button's count is the length of the list that button shows. */
  lemma ButtonCountIsListLength(orders: seq<Order>, filter: string)
    ensures ButtonCount(orders, filter) == |Shown(orders, filter)|
  {
    FilterCount(orders, HasStatus(filter));
  }

  /** `getStatusIcon`. */
  function StatusIcon(status: string): string {
    if status == StatusDelivered then "\U{2705}" else if status == StatusScheduled then "\U{1F69A}" else "\U{23F3}"
  }

  /** The three icons tell delivered, scheduled and every other status apart. */
  lemma StatusIconSpec(status: string)
    ensures StatusIcon(status) == "\U{2705}" <==> status == StatusDelivered
    ensures StatusIcon(status) == "\U{1F69A}" <==> status == StatusScheduled
    ensures StatusIcon(status) == "\U{23F3}" <==> status != StatusDelivered && status != StatusScheduled
  {
  }

  /** The "Delivered on" notice. */
  predicate ShowsDeliveredOn(o: Order) {
    o.status == StatusDelivered && o.deliveredDate.Some?
  }

  /**
   * A delivered-status write that carries a date makes every written order
   * show its delivered-on notice; one that carries none (the shared trip
   * board's completion) shows it only where an earlier write left a date.
   */
  lemma DeliveredWritesShowDate(orders: seq<Order>, ids: set<OrderId>, date: Option<string>, k: nat)
    requires k < |orders| && orders[k].id in ids
    ensures date.Some? ==> ShowsDeliveredOn(UpdateStatus(orders, ids, StatusPatch(StatusDelivered, date))[k])
    ensures date.None? ==>
      (ShowsDeliveredOn(UpdateStatus(orders, ids, StatusPatch(StatusDelivered, date))[k]) <==> orders[k].deliveredDate.Some?)
  {
  }
}
