/**
 * The finance screen: the receivable headline, marking an order paid with
 * optional evidence, and confirming a payment, which demands evidence.
 */
module Finance {
  import opened Wrappers
  import opened Seqs
  import opened Orders
  import opened Payments

  datatype PayOutcome = Recorded | MissingEvidence | StoreWriteError

  /** The update record: paid, dated `today`, with `payment_evidence` exactly when evidence was passed. */
  method MarkPaidRecord(today: string, evidence: Option<string>) returns (u: PaymentUpdate)
    ensures u.paymentStatus == PaymentPaid && u.paidDate == today
    ensures u.evidence == evidence
  {
    u := PaymentUpdate(PaymentPaid, today, None);
    if evidence.Some? {
      u := u.(evidence := evidence);
    }
  }

  /** The screen's state: the orders as loaded, and the evidence dialog. */
  class FinanceDesk {
    var orders: seq<Order>
    var dialogOpen: bool
    var selected: Option<OrderId>
    var evidence: Option<string>

    constructor(orders: seq<Order>)
      ensures this.orders == orders && !dialogOpen && selected.None? && evidence.None?
    {
      this.orders := orders;
      dialogOpen := false;
      selected := None;
      evidence := None;
    }

    /** The headline figure. */
    function Owed(): int
      reads this
    {
      Receivable(orders)
    }

    method OpenDialog(id: OrderId)
      modifies this
      ensures dialogOpen && selected == Some(id) && evidence == old(evidence) && orders == old(orders)
    {
      dialogOpen := true;
      selected := Some(id);
    }

    method UploadEvidence(file: Option<string>)
      modifies this`evidence
      ensures evidence == (if file.Some? then file else old(evidence))
    {
      if file.Some? {
        evidence := file;
      }
    }

    /**
     * Writes the mark-paid record to order `id` (no order when `id` is `None`);
     * success closes the dialog and clears it and lowers the headline to what the
     * other orders owe, failure changes nothing.
     */
    method MarkAsPaid(id: Option<OrderId>, attached: Option<string>, today: string, writeOk: bool)
      returns (outcome: PayOutcome)
      modifies this
      ensures writeOk ==>
        outcome == Recorded &&
        orders == (if id.Some? then WritePayment(old(orders), id.value, PaymentUpdate(PaymentPaid, today, attached))
                   else old(orders)) &&
        !dialogOpen && selected.None? && evidence.None?
      ensures !writeOk ==>
        outcome == StoreWriteError &&
        orders == old(orders) && dialogOpen == old(dialogOpen) && selected == old(selected) && evidence == old(evidence)
      ensures writeOk && id.Some? ==> Owed() == Receivable(Filter(old(orders), IdIsNot(id.value)))
    {
      var u := MarkPaidRecord(today, attached);
      if id.Some? {
        MarkPaidReceivable(orders, id.value, u);
      }
      if !writeOk {
        return StoreWriteError;
      }
      if id.Some? {
        orders := WritePayment(orders, id.value, u);
      }
      dialogOpen := false;
      selected := None;
      evidence := None;
      outcome := Recorded;
    }

    /**
     * Confirms the dialog: refused, with nothing written, when no evidence was
     * uploaded; otherwise the selected order is marked paid with exactly that evidence.
     */
    method ConfirmPayment(today: string, writeOk: bool) returns (outcome: PayOutcome)
      modifies this
      ensures old(evidence).None? ==>
        outcome == MissingEvidence && orders == old(orders) && dialogOpen == old(dialogOpen) &&
        selected == old(selected) && evidence == old(evidence)
      ensures old(evidence).Some? && writeOk ==>
        outcome == Recorded &&
        orders == (if old(selected).Some?
                   then WritePayment(old(orders), old(selected).value, PaymentUpdate(PaymentPaid, today, old(evidence)))
                   else old(orders)) &&
        !dialogOpen && selected.None? && evidence.None?
      ensures old(evidence).Some? && !writeOk ==>
        outcome == StoreWriteError && orders == old(orders) && dialogOpen == old(dialogOpen) &&
        selected == old(selected) && evidence == old(evidence)
    {
      if evidence.None? {
        return MissingEvidence;
      }
      outcome := MarkAsPaid(selected, evidence, today, writeOk);
    }
  }
}
