/**
 * The order record as the front end reads it from the `orders` table (with its
 * nested `order_items`), the filters every page builds on, and the store write
 * that changes an order's delivery status.
 */
module Orders {
  import opened Wrappers
  import opened Seqs

  type OrderId = string

  /** Delivery statuses the pages write and compare against. */
  const StatusPending: string := "pending"
  const StatusScheduled: string := "scheduled"
  const StatusDelivered: string := "delivered"

  /** Payment statuses. */
  const PaymentPaid: string := "paid"
  const PaymentUnpaid: string := "unpaid"

  /** The branch scope of users who see every branch. */
  const AllBranches: string := "All"

  /** One `order_items` row; `discount` may be null in stored rows. */
  datatype OrderItem = OrderItem(
    product: string,
    isRefill: bool,
    quantity: int,
    unitPrice: int,
    discount: Option<int>)

  /** One `orders` row with its items. */
  datatype Order = Order(
    id: OrderId,
    customerId: string,
    customerName: string,
    customerAddress: string,
    customerWhatsapp: string,
    customerDiscount: int,
    branch: string,
    totalAmount: int,
    deliveryDate: string,
    createdBy: string,
    status: string,
    paymentStatus: string,
    paidDate: Option<string>,
    paymentEvidence: Option<string>,
    deliveredDate: Option<string>,
    items: seq<OrderItem>)

  /** A user of branch `branch` sees the order (everything when the branch is "All"). */
  function InScope(branch: string): Order -> bool {
    (o: Order) => branch == AllBranches || o.branch == branch
  }

  /** The orders of the caller's branch scope, in list order. */
  function BranchScope(orders: seq<Order>, branch: string): seq<Order> {
    Filter(orders, InScope(branch))
  }

  function HasStatus(status: string): Order -> bool {
    (o: Order) => o.status == status
  }

  function HavingStatus(orders: seq<Order>, status: string): seq<Order> {
    Filter(orders, HasStatus(status))
  }

  function HasPaymentStatus(status: string): Order -> bool {
    (o: Order) => o.paymentStatus == status
  }

  function HavingPaymentStatus(orders: seq<Order>, status: string): seq<Order> {
    Filter(orders, HasPaymentStatus(status))
  }

  /** `reduce((sum, o) => sum + o.total_amount, 0)`. */
  function SumAmounts(orders: seq<Order>): int {
    if orders == [] then 0 else orders[0].totalAmount + SumAmounts(orders[1..])
  }

  /** The total still owed: the amounts of the unpaid orders. */
  function Receivable(orders: seq<Order>): int {
    SumAmounts(HavingPaymentStatus(orders, PaymentUnpaid))
  }

  lemma {:induction false} BranchScopeAll(orders: seq<Order>)
    ensures BranchScope(orders, AllBranches) == orders
  {
    FilterAllTrue(orders, InScope(AllBranches));
  }

  /** An order is in scope exactly when it is listed and the branch is "All" or its own. */
  lemma BranchScopeMembership(orders: seq<Order>, branch: string, o: Order)
    ensures o in BranchScope(orders, branch) <==> o in orders && (branch == AllBranches || o.branch == branch)
  {
    FilterMembership(orders, InScope(branch), o);
  }

  lemma {:induction false} SumAmountsAppend(a: seq<Order>, b: seq<Order>)
    ensures SumAmounts(a + b) == SumAmounts(a) + SumAmounts(b)
  {
    if a != [] {
      SumAmountsAppend(a[1..], b);
      assert (a + b)[1..] == a[1..] + b;
    } else {
      assert a + b == b;
    }
  }

  /** The receivable of a non-empty list is its head's share plus the receivable of the rest. */
  lemma ReceivableCons(orders: seq<Order>)
    requires orders != []
    ensures Receivable(orders) ==
      (if orders[0].paymentStatus == PaymentUnpaid then orders[0].totalAmount else 0) + Receivable(orders[1..])
  {
    var head := if orders[0].paymentStatus == PaymentUnpaid then [orders[0]] else [];
    assert HavingPaymentStatus(orders, PaymentUnpaid) == head + HavingPaymentStatus(orders[1..], PaymentUnpaid);
    SumAmountsAppend(head, HavingPaymentStatus(orders[1..], PaymentUnpaid));
  }

  /** The fields a delivery-status write sets; `deliveredDate` is `None` when the write omits `delivered_date`. */
  datatype StatusPatch = StatusPatch(status: string, deliveredDate: Option<string>)

  function PatchStatus(o: Order, p: StatusPatch): Order {
    o.(status := p.status, deliveredDate := if p.deliveredDate.Some? then p.deliveredDate else o.deliveredDate)
  }

  /**
   * `update(patch).eq("id", …)` for every id in `ids`: the matching rows take the
   * patch, every other row and every other field stays as it was.
   */
  function UpdateStatus(orders: seq<Order>, ids: set<OrderId>, p: StatusPatch): (r: seq<Order>)
    ensures |r| == |orders|
    ensures forall k :: 0 <= k < |r| ==> r[k].id == orders[k].id
    ensures forall k :: 0 <= k < |r| && orders[k].id !in ids ==> r[k] == orders[k]
    ensures forall k :: 0 <= k < |r| && orders[k].id in ids ==>
              r[k].status == p.status
              && r[k].deliveredDate == (if p.deliveredDate.Some? then p.deliveredDate else orders[k].deliveredDate)
              && r[k].(status := orders[k].status, deliveredDate := orders[k].deliveredDate) == orders[k]
  {
    seq(|orders|, k requires 0 <= k < |orders| => if orders[k].id in ids then PatchStatus(orders[k], p) else orders[k])
  }

  /** One status write per order id in turn ends in the same table as one write over all of them. */
  lemma UpdateStatusCompose(orders: seq<Order>, a: set<OrderId>, b: set<OrderId>, p: StatusPatch)
    ensures UpdateStatus(UpdateStatus(orders, a, p), b, p) == UpdateStatus(orders, a + b, p)
  {
    var lhs := UpdateStatus(UpdateStatus(orders, a, p), b, p);
    var rhs := UpdateStatus(orders, a + b, p);
    forall k | 0 <= k < |orders| ensures lhs[k] == rhs[k] {
    }
  }
}
