/**
 * Recording a payment: the update record both payment screens write to an
 * order row, the receivable it lowers, and the paid/unpaid summary.
 */
module Payments {
  import opened Wrappers
  import opened Seqs
  import opened Orders

  /** The update record of a mark-paid write; `evidence` is `None` when the record has no `payment_evidence` key. */
  datatype PaymentUpdate = PaymentUpdate(paymentStatus: string, paidDate: string, evidence: Option<string>)

  function ApplyPayment(o: Order, u: PaymentUpdate): Order {
    o.(paymentStatus := u.paymentStatus, paidDate := Some(u.paidDate),
       paymentEvidence := if u.evidence.Some? then u.evidence else o.paymentEvidence)
  }

  /**
   * `update(u).eq("id", id)`: the rows with that id take the record's fields,
   * every other field and every other row stays as it was.
   */
  function WritePayment(orders: seq<Order>, id: OrderId, u: PaymentUpdate): (r: seq<Order>)
    ensures |r| == |orders|
    ensures forall k :: 0 <= k < |r| && orders[k].id != id ==> r[k] == orders[k]
    ensures forall k :: 0 <= k < |r| && orders[k].id == id ==>
              r[k].paymentStatus == u.paymentStatus && r[k].paidDate == Some(u.paidDate)
              && (u.evidence.Some? ==> r[k].paymentEvidence == u.evidence)
              && (u.evidence.None? ==> r[k].paymentEvidence == orders[k].paymentEvidence)
              && r[k].(paymentStatus := orders[k].paymentStatus, paidDate := orders[k].paidDate,
                       paymentEvidence := orders[k].paymentEvidence) == orders[k]
  {
    seq(|orders|, k requires 0 <= k < |orders| => if orders[k].id == id then ApplyPayment(orders[k], u) else orders[k])
  }

  function IdIsNot(id: OrderId): Order -> bool {
    (o: Order) => o.id != id
  }

  lemma WritePaymentTail(orders: seq<Order>, id: OrderId, u: PaymentUpdate)
    requires orders != []
    ensures WritePayment(orders, id, u)[1..] == WritePayment(orders[1..], id, u)
  {
  }

  /**
   * After marking order `id` paid, what is still owed is exactly what the
   * other orders owe: the written rows no longer count towards the receivable.
   */
  lemma {:induction false} MarkPaidReceivable(orders: seq<Order>, id: OrderId, u: PaymentUpdate)
    requires u.paymentStatus == PaymentPaid
    ensures Receivable(WritePayment(orders, id, u)) == Receivable(Filter(orders, IdIsNot(id)))
  {
    if orders != [] {
      var r := WritePayment(orders, id, u);
      WritePaymentTail(orders, id, u);
      MarkPaidReceivable(orders[1..], id, u);
      assert r[1..] == WritePayment(orders[1..], id, u);
      ReceivableCons(r);
      if orders[0].id == id {
        assert r[0].paymentStatus == PaymentPaid;
        assert Filter(orders, IdIsNot(id)) == Filter(orders[1..], IdIsNot(id));
      } else {
        assert r[0] == orders[0];
        var f := Filter(orders, IdIsNot(id));
        assert f == [orders[0]] + Filter(orders[1..], IdIsNot(id));
        assert f[1..] == Filter(orders[1..], IdIsNot(id));
        ReceivableCons(f);
      }
    }
  }

  /** With a unique id, marking an unpaid order paid lowers the receivable by its amount, and a paid one leaves it. */
  lemma {:induction false} MarkPaidLowersReceivable(orders: seq<Order>, id: OrderId, u: PaymentUpdate, k: nat)
    requires u.paymentStatus == PaymentPaid
    requires k < |orders| && orders[k].id == id
    requires forall j :: 0 <= j < |orders| && j != k ==> orders[j].id != id
    ensures orders[k].paymentStatus == PaymentUnpaid ==>
      Receivable(WritePayment(orders, id, u)) == Receivable(orders) - orders[k].totalAmount
    ensures orders[k].paymentStatus != PaymentUnpaid ==>
      Receivable(WritePayment(orders, id, u)) == Receivable(orders)
  {
    MarkPaidReceivable(orders, id, u);
    ReceivableWithoutOne(orders, id, k);
  }

  lemma {:induction false} ReceivableWithoutOne(orders: seq<Order>, id: OrderId, k: nat)
    requires k < |orders| && orders[k].id == id
    requires forall j :: 0 <= j < |orders| && j != k ==> orders[j].id != id
    ensures Receivable(Filter(orders, IdIsNot(id))) ==
      Receivable(orders) - (if orders[k].paymentStatus == PaymentUnpaid then orders[k].totalAmount else 0)
  {
    var f := Filter(orders, IdIsNot(id));
    if k == 0 {
      FilterAllTrue(orders[1..], IdIsNot(id));
      assert f == Filter(orders[1..], IdIsNot(id));
      ReceivableCons(orders);
    } else {
      ReceivableWithoutOne(orders[1..], id, k - 1);
      assert f == [orders[0]] + Filter(orders[1..], IdIsNot(id));
      assert f[1..] == Filter(orders[1..], IdIsNot(id));
      ReceivableCons(f);
      ReceivableCons(orders);
    }
  }

  /**
   * When every order is either paid or unpaid, the summary's two counts add up
   * to the number of orders and its two sums to the total of all amounts.
   */
  lemma {:induction false} PaidUnpaidSummary(orders: seq<Order>)
    requires forall k :: 0 <= k < |orders| ==> orders[k].paymentStatus == PaymentPaid || orders[k].paymentStatus == PaymentUnpaid
    ensures |HavingPaymentStatus(orders, PaymentUnpaid)| + |HavingPaymentStatus(orders, PaymentPaid)| == |orders|
    ensures SumAmounts(HavingPaymentStatus(orders, PaymentUnpaid)) + SumAmounts(HavingPaymentStatus(orders, PaymentPaid))
            == SumAmounts(orders)
  {
    if orders != [] {
      PaidUnpaidSummary(orders[1..]);
      var rest := orders[1..];
      var unpaidHead := if orders[0].paymentStatus == PaymentUnpaid then [orders[0]] else [];
      var paidHead := if orders[0].paymentStatus == PaymentPaid then [orders[0]] else [];
      assert HavingPaymentStatus(orders, PaymentUnpaid) == unpaidHead + HavingPaymentStatus(rest, PaymentUnpaid);
      assert HavingPaymentStatus(orders, PaymentPaid) == paidHead + HavingPaymentStatus(rest, PaymentPaid);
      SumAmountsAppend(unpaidHead, HavingPaymentStatus(rest, PaymentUnpaid));
      SumAmountsAppend(paidHead, HavingPaymentStatus(rest, PaymentPaid));
    }
  }

  /** Payment actions are offered for an order exactly while it is unpaid. */
  predicate OffersPayActions(o: Order) {
    o.paymentStatus == PaymentUnpaid
  }

  /** The "paid but not yet delivered" notice: shown on a non-unpaid order not yet delivered. */
  predicate ShowsPaidNotDelivered(o: Order) {
    o.paymentStatus != PaymentUnpaid && o.status != StatusDelivered
  }

  /**
   * Marking an order paid takes its payment actions away; if it has not been
   * delivered, the paid-not-delivered notice appears in their place.
   */
  lemma MarkPaidViews(orders: seq<Order>, id: OrderId, u: PaymentUpdate, k: nat)
    requires u.paymentStatus == PaymentPaid
    requires k < |orders| && orders[k].id == id
    ensures !OffersPayActions(WritePayment(orders, id, u)[k])
    ensures ShowsPaidNotDelivered(WritePayment(orders, id, u)[k]) <==> orders[k].status != StatusDelivered
  {
  }
}
