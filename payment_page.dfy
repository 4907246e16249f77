/**
 * The sales payment page: searching and filtering orders by payment status,
 * the receivable and summary figures, and marking an order paid with or
 * without the uploaded evidence.
 */
module PaymentPage {
  import opened Wrappers
  import opened Seqs
  import opened Text
  import opened Orders
  import opened Payments

  /** The filter buttons' values besides "paid" and "unpaid". */
  const FilterAll: string := "all"

  function MatchesSearch(term: string): Order -> bool {
    (o: Order) => Contains(Lower(o.customerName), Lower(term)) || Contains(Lower(o.customerAddress), Lower(term))
  }

  function MatchesSearchAndFilter(term: string, filter: string): Order -> bool {
    (o: Order) => MatchesSearch(term)(o) && (filter == FilterAll || o.paymentStatus == filter)
  }

  /** `filteredOrders`. */
  function FilteredPayments(orders: seq<Order>, term: string, filter: string): seq<Order> {
    Filter(orders, MatchesSearchAndFilter(term, filter))
  }

  /**
   * An order is listed exactly when its lowercased name or address contains the
   * lowercased term and the filter is "all" or its payment status; the list
   * keeps the orders' order.
   */
  lemma FilteredPaymentsSpec(orders: seq<Order>, term: string, filter: string, o: Order)
    ensures o in FilteredPayments(orders, term, filter) <==>
      o in orders && (Contains(Lower(o.customerName), Lower(term)) || Contains(Lower(o.customerAddress), Lower(term)))
      && (filter == FilterAll || o.paymentStatus == filter)
    ensures IsSubsequence(FilteredPayments(orders, term, filter), orders)
  {
    FilterMembership(orders, MatchesSearchAndFilter(term, filter), o);
    assert MatchesSearchAndFilter(term, filter)(o) <==>
      MatchesSearch(term)(o) && (filter == FilterAll || o.paymentStatus == filter);
    FilterIsSubsequence(orders, MatchesSearchAndFilter(term, filter));
  }

  /** With an empty search and the "all" filter every order is listed. */
  lemma FilteredPaymentsEverything(orders: seq<Order>)
    ensures FilteredPayments(orders, "", FilterAll) == orders
  {
    forall o: Order
      ensures MatchesSearchAndFilter("", FilterAll)(o)
    {
      assert Lower("") == "";
      ContainsEmpty(Lower(o.customerName));
      assert MatchesSearch("")(o);
    }
    FilterAllTrue(orders, MatchesSearchAndFilter("", FilterAll));
  }

  /**
   * `handleMarkAsPaid`'s update record: paid, dated `today`, and carrying the
   * uploaded evidence only when asked to and when there is some.
   */
  method MarkPaidRecord(today: string, withEvidence: bool, evidence: Option<string>) returns (u: PaymentUpdate)
    ensures u.paymentStatus == PaymentPaid && u.paidDate == today
    ensures u.evidence.Some? <==> withEvidence && evidence.Some?
    ensures u.evidence.Some? ==> u.evidence == evidence
  {
    u := PaymentUpdate(PaymentPaid, today, None);
    if withEvidence && evidence.Some? {
      u := u.(evidence := evidence);
    }
  }

  /** The page's state: the orders as loaded, and the payment dialog. */
  class PaymentDesk {
    var orders: seq<Order>
    var dialogOpen: bool
    var selected: Option<OrderId>
    var evidence: Option<string>

    constructor(orders: seq<Order>)
      ensures this.orders == orders && !dialogOpen && selected.None? && evidence.None?
    {
      this.orders := orders;
      dialogOpen := false;
      selected := None;
      evidence := None;
    }

    /** What the summary's "unpaid" box and the receivable show. */
    function Owed(): int
      reads this
    {
      Receivable(orders)
    }

    method OpenDialog(id: OrderId)
      modifies this
      ensures dialogOpen && selected == Some(id) && evidence == old(evidence) && orders == old(orders)
    {
      dialogOpen := true;
      selected := Some(id);
    }

    /** A file read as a data URL becomes the evidence; no file changes nothing. */
    method UploadEvidence(file: Option<string>)
      modifies this`evidence
      ensures evidence == (if file.Some? then file else old(evidence))
    {
      if file.Some? {
        evidence := file;
      }
    }

    /**
     * Writes the mark-paid record to order `id`; on success the dialog closes and
     * its selection and evidence are cleared, and what is owed is what the other
     * orders owe; on failure nothing changes.
     */
    method MarkAsPaid(id: OrderId, withEvidence: bool, today: string, writeOk: bool)
      modifies this
      ensures writeOk ==>
        orders == WritePayment(old(orders), id,
                               PaymentUpdate(PaymentPaid, today, if withEvidence then old(evidence) else None)) &&
        !dialogOpen && selected.None? && evidence.None?
      ensures !writeOk ==>
        orders == old(orders) && dialogOpen == old(dialogOpen) && selected == old(selected) && evidence == old(evidence)
      ensures writeOk ==> Owed() == Receivable(Filter(old(orders), IdIsNot(id)))
    {
      var u := MarkPaidRecord(today, withEvidence, evidence);
      MarkPaidReceivable(orders, id, u);
      if !writeOk {
        return;
      }
      orders := WritePayment(orders, id, u);
      dialogOpen := false;
      selected := None;
      evidence := None;
    }
  }
}
