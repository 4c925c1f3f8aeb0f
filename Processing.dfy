/**
 * The order-processing modal of `OrderProcessingModal.tsx` as a step machine.
 *
 * The modal keeps the current step, a working copy of the order and the log of completed
 * steps. Each step component calls one completion handler; the handler appends one log line
 * and moves to the next step. `ModalState` holds the three fields and one pure function per
 * handler says what it does; the class `OrderProcessingModal` holds them as mutable fields.
 * The `order` prop is a parameter that does not change while the modal is open.
 */
module Processing {
  import opened Wrappers

  datatype Status = Unread | Pending | Quotations | Invoices
  datatype OrderKind = Enquiry | PurchaseOrder
  datatype Priority = High | Medium | Low

  /** `processedDetails`; its timestamp is not modelled. */
  datatype ProcessedDetails = ProcessedDetails(steps: seq<string>)

  datatype Order = Order(
    id: string,
    client: string,
    summary: string,
    time: string,
    status: Status,
    amount: string,
    priority: Priority,
    enquiryEmail: Option<string>,
    kind: Option<OrderKind>,
    processedDetails: Option<ProcessedDetails>)

  datatype ProcessingStep = EmailCheck | Quotation | Invoice | EmailDraft | Success | ViewHistory

  /** The callbacks of the modal's props, in the order they are called. */
  datatype Callback = Processed(order: Order) | Closed

  const CustomEmailSent := "Custom email sent"
  const EmailVerified := "Email verified"
  const QuotationGenerated := "Quotation generated"
  const InvoiceGenerated := "Invoice generated"
  const EmailSentWithAttachment := "Email sent with attachment"

  datatype ModalState = ModalState(currentStep: ProcessingStep, processedOrder: Order, executionSteps: seq<string>)

  /** The step the mount effect selects from the order's status. */
  function InitialStep(status: Status): (r: ProcessingStep)
    ensures r == EmailCheck <==> status == Unread || status == Pending
    ensures r == ViewHistory <==> status == Quotations || status == Invoices
  {
    match status
    case Unread | Pending => EmailCheck
    case Quotations | Invoices => ViewHistory
  }

  /** The state right after mounting: the working copy is the order and the log is empty. */
  function Initial(order: Order): ModalState {
    ModalState(InitialStep(order.status), order, [])
  }

  /** The log line for a completed e-mail check; an empty custom e-mail counts as none. */
  function EmailCheckEntry(customEmail: Option<string>): (r: string)
    ensures r == CustomEmailSent <==> customEmail.Some? && customEmail.value != ""
    ensures r == EmailVerified <==> customEmail.None? || customEmail.value == ""
  {
    if customEmail.Some? && customEmail.value != "" then CustomEmailSent else EmailVerified
  }

  /** `handleEmailCheckComplete(customEmail)`. */
  function EmailCheckComplete(order: Order, s: ModalState, customEmail: Option<string>): ModalState {
    var step :=
      if order.kind == Some(Enquiry) then Quotation
      else if order.kind == Some(PurchaseOrder) then Invoice
      else s.currentStep;
    s.(executionSteps := s.executionSteps + [EmailCheckEntry(customEmail)], currentStep := step)
  }

  /** `handleQuotationComplete`; the generated text is not kept. */
  function QuotationComplete(s: ModalState): ModalState {
    s.(executionSteps := s.executionSteps + [QuotationGenerated], currentStep := EmailDraft)
  }

  /** `handleInvoiceComplete`; the generated text is not kept. */
  function InvoiceComplete(s: ModalState): ModalState {
    s.(executionSteps := s.executionSteps + [InvoiceGenerated], currentStep := EmailDraft)
  }

  /** The status an order has once processed: quotations for an enquiry, invoices otherwise. */
  function ProcessedStatus(kind: Option<OrderKind>): Status {
    if kind == Some(Enquiry) then Quotations else Invoices
  }

  /**
   * `handleEmailDraftComplete`. The details it stores read the log from before this call,
   * so they miss the line this call appends.
   */
  function EmailDraftComplete(order: Order, s: ModalState): ModalState {
    var updated := s.processedOrder.(status := ProcessedStatus(order.kind),
                                     processedDetails := Some(ProcessedDetails(s.executionSteps)));
    ModalState(Success, updated, s.executionSteps + [EmailSentWithAttachment])
  }

  /** `handleSuccess`: reports the processed order, then closes. */
  function SuccessCallbacks(s: ModalState): (r: seq<Callback>)
    ensures |r| == 2 && r[0] == Processed(s.processedOrder) && r[1] == Closed
  {
    [Processed(s.processedOrder), Closed]
  }

  lemma EmailCheckSpec(order: Order, s: ModalState, customEmail: Option<string>)
    ensures var t := EmailCheckComplete(order, s, customEmail);
      && t.executionSteps[..|s.executionSteps|] == s.executionSteps
      && |t.executionSteps| == |s.executionSteps| + 1
      && (customEmail.Some? && customEmail.value != "" ==> t.executionSteps[|s.executionSteps|] == "Custom email sent")
      && (customEmail.None? || customEmail.value == "" ==> t.executionSteps[|s.executionSteps|] == "Email verified")
      && (order.kind == Some(Enquiry) ==> t.currentStep == Quotation)
      && (order.kind == Some(PurchaseOrder) ==> t.currentStep == Invoice)
      && (order.kind.None? ==> t.currentStep == s.currentStep)
      && t.processedOrder == s.processedOrder
  {
    assert (s.executionSteps + [EmailCheckEntry(customEmail)])[..|s.executionSteps|] == s.executionSteps;
  }

  lemma DocumentStepSpec(s: ModalState)
    ensures QuotationComplete(s).executionSteps == s.executionSteps + ["Quotation generated"]
    ensures InvoiceComplete(s).executionSteps == s.executionSteps + ["Invoice generated"]
    ensures QuotationComplete(s).currentStep == EmailDraft && InvoiceComplete(s).currentStep == EmailDraft
    ensures QuotationComplete(s).processedOrder == s.processedOrder == InvoiceComplete(s).processedOrder
  {
  }

  /**
   * Completing the draft appends the last log line and moves to success. The working copy
   * keeps all its fields except the status (quotations for an enquiry, invoices otherwise)
   * and the details, whose steps are the log without that last line.
   */
  lemma EmailDraftSpec(order: Order, s: ModalState)
    ensures var t := EmailDraftComplete(order, s);
      && t.currentStep == Success
      && t.executionSteps == s.executionSteps + ["Email sent with attachment"]
      && t.processedOrder.processedDetails.Some?
      && t.processedOrder.processedDetails.value.steps + ["Email sent with attachment"] == t.executionSteps
      && t.processedOrder.status == (if order.kind == Some(Enquiry) then Quotations else Invoices)
      && t.processedOrder == s.processedOrder.(status := t.processedOrder.status,
                                               processedDetails := t.processedOrder.processedDetails)
  {
  }

  // ---------------------------------------------------------------------------
  // The step components the modal renders, and what they report

  /** What a rendered step component reports. */
  datatype Completion =
    | EmailChecked(customEmail: Option<string>)
    | QuotationDone
    | InvoiceDone
    | DraftDone
    | Finished
    | HistoryClosed

  /** Whether the step component that reports `c` is rendered in state `s`. */
  predicate Offered(order: Order, s: ModalState, c: Completion) {
    match c
    case EmailChecked(_) => s.currentStep == EmailCheck
    case QuotationDone => s.currentStep == Quotation && order.kind == Some(Enquiry)
    case InvoiceDone => s.currentStep == Invoice && order.kind == Some(PurchaseOrder)
    case DraftDone => s.currentStep == EmailDraft
    case Finished => s.currentStep == Success
    case HistoryClosed => s.currentStep == ViewHistory && s.processedOrder.processedDetails.Some?
  }

  /** The state after `c` is reported; a completion whose component is not rendered does nothing. */
  function Complete(order: Order, s: ModalState, c: Completion): ModalState {
    if !Offered(order, s, c) then s
    else
      match c
      case EmailChecked(e) => EmailCheckComplete(order, s, e)
      case QuotationDone => QuotationComplete(s)
      case InvoiceDone => InvoiceComplete(s)
      case DraftDone => EmailDraftComplete(order, s)
      case Finished => s
      case HistoryClosed => s
  }

  /** The callbacks `c` calls. */
  function Callbacks(order: Order, s: ModalState, c: Completion): seq<Callback> {
    if !Offered(order, s, c) then []
    else
      match c
      case Finished => SuccessCallbacks(s)
      case HistoryClosed => [Closed]
      case _ => []
  }

  function CompleteAll(order: Order, s: ModalState, cs: seq<Completion>): ModalState
    decreases |cs|
  {
    if cs == [] then s else CompleteAll(order, Complete(order, s, cs[0]), cs[1..])
  }

  /** The log only grows, by appending, and by at most one line per completion. */
  lemma CompleteAppends(order: Order, s: ModalState, c: Completion)
    ensures var t := Complete(order, s, c);
      && |s.executionSteps| <= |t.executionSteps| <= |s.executionSteps| + 1
      && t.executionSteps[..|s.executionSteps|] == s.executionSteps
      && (Offered(order, s, c) && !c.Finished? && !c.HistoryClosed? <==> |t.executionSteps| == |s.executionSteps| + 1)
  {
    var t := Complete(order, s, c);
    if |t.executionSteps| == |s.executionSteps| + 1 {
      assert t.executionSteps[..|s.executionSteps|] == s.executionSteps;
    }
  }

  lemma {:induction false} CompleteAllAppends(order: Order, s: ModalState, cs: seq<Completion>)
    ensures var t := CompleteAll(order, s, cs);
      && |s.executionSteps| <= |t.executionSteps| <= |s.executionSteps| + |cs|
      && t.executionSteps[..|s.executionSteps|] == s.executionSteps
    decreases |cs|
  {
    if cs != [] {
      var u := Complete(order, s, cs[0]);
      CompleteAppends(order, s, cs[0]);
      CompleteAllAppends(order, u, cs[1..]);
      var t := CompleteAll(order, u, cs[1..]);
      assert t.executionSteps[..|s.executionSteps|] == t.executionSteps[..|u.executionSteps|][..|s.executionSteps|];
    }
  }

  /**
   * What holds of every state the modal reaches: the quotation step only for an enquiry,
   * the invoice step only for a purchase order, a working copy that differs from the order
   * at most in its status and details, and once at success the working copy has its processed
   * status and details.
   */
  predicate Consistent(order: Order, s: ModalState) {
    && s.processedOrder == order.(status := s.processedOrder.status, processedDetails := s.processedOrder.processedDetails)
    && (s.currentStep == Quotation ==> order.kind == Some(Enquiry))
    && (s.currentStep == Invoice ==> order.kind == Some(PurchaseOrder))
    && (s.currentStep == Success ==>
          && s.processedOrder.status == ProcessedStatus(order.kind)
          && s.processedOrder.processedDetails.Some?
          && s.processedOrder.processedDetails.value.steps + [EmailSentWithAttachment] == s.executionSteps)
  }

  lemma InitialConsistent(order: Order)
    ensures Consistent(order, Initial(order))
  {
  }

  lemma {:induction false} CompleteAllConsistent(order: Order, s: ModalState, cs: seq<Completion>)
    requires Consistent(order, s)
    ensures Consistent(order, CompleteAll(order, s, cs))
    decreases |cs|
  {
    if cs != [] {
      CompleteAllConsistent(order, Complete(order, s, cs[0]), cs[1..]);
    }
  }

  /**
   * Whatever run of completions reaches the success step, finishing reports the order with
   * its processed status (quotations for an enquiry, invoices otherwise), its other fields as
   * given, and the log without its last line as details, and then closes the modal.
   */
  lemma SuccessReportsProcessedOrder(order: Order, cs: seq<Completion>)
    requires CompleteAll(order, Initial(order), cs).currentStep == Success
    ensures var t := CompleteAll(order, Initial(order), cs);
      var calls := Callbacks(order, t, Finished);
      && calls == [Processed(t.processedOrder), Closed]
      && t.processedOrder.status == (if order.kind == Some(Enquiry) then Quotations else Invoices)
      && t.processedOrder.processedDetails.Some?
      && t.processedOrder.processedDetails.value.steps + ["Email sent with attachment"] == t.executionSteps
      && t.processedOrder == order.(status := t.processedOrder.status, processedDetails := t.processedOrder.processedDetails)
  {
    InitialConsistent(order);
    CompleteAllConsistent(order, Initial(order), cs);
  }

  /**
   * An order without a type never leaves the e-mail check: the check completes, logs its line
   * and stays where it is.
   */
  lemma {:induction false} UntypedOrderStaysAtEmailCheck(order: Order, s: ModalState, cs: seq<Completion>)
    requires order.kind.None? && s.currentStep == EmailCheck
    ensures CompleteAll(order, s, cs).currentStep == EmailCheck
    decreases |cs|
  {
    if cs != [] {
      UntypedOrderStaysAtEmailCheck(order, Complete(order, s, cs[0]), cs[1..]);
    }
  }

  /**
   * The whole flow for a new enquiry: check, quotation, draft, success; the log holds the
   * three lines; the stored details hold the first two; and finishing reports the processed
   * order before closing.
   */
  lemma EnquiryFlow(order: Order, customEmail: Option<string>)
    requires order.status == Unread || order.status == Pending
    requires order.kind == Some(Enquiry)
    ensures var t := CompleteAll(order, Initial(order), [EmailChecked(customEmail), QuotationDone, DraftDone]);
      && t.currentStep == Success
      && t.executionSteps == [EmailCheckEntry(customEmail), "Quotation generated", "Email sent with attachment"]
      && t.processedOrder.status == Quotations
      && t.processedOrder.processedDetails == Some(ProcessedDetails([EmailCheckEntry(customEmail), "Quotation generated"]))
      && Callbacks(order, t, Finished) == [Processed(t.processedOrder), Closed]
  {
    var s0 := Initial(order);
    var s1 := Complete(order, s0, EmailChecked(customEmail));
    var s2 := Complete(order, s1, QuotationDone);
    var s3 := Complete(order, s2, DraftDone);
    assert s2.executionSteps == [EmailCheckEntry(customEmail), QuotationGenerated];
    assert CompleteAll(order, s3, []) == s3;
    assert [EmailChecked(customEmail), QuotationDone, DraftDone][1..] == [QuotationDone, DraftDone];
    assert [QuotationDone, DraftDone][1..] == [DraftDone];
  }

  /** The same for a new purchase order, through the invoice step. */
  lemma PurchaseOrderFlow(order: Order, customEmail: Option<string>)
    requires order.status == Unread || order.status == Pending
    requires order.kind == Some(PurchaseOrder)
    ensures var t := CompleteAll(order, Initial(order), [EmailChecked(customEmail), InvoiceDone, DraftDone]);
      && t.currentStep == Success
      && t.executionSteps == [EmailCheckEntry(customEmail), "Invoice generated", "Email sent with attachment"]
      && t.processedOrder.status == Invoices
      && t.processedOrder.processedDetails == Some(ProcessedDetails([EmailCheckEntry(customEmail), "Invoice generated"]))
      && Callbacks(order, t, Finished) == [Processed(t.processedOrder), Closed]
  {
    var s0 := Initial(order);
    var s1 := Complete(order, s0, EmailChecked(customEmail));
    var s2 := Complete(order, s1, InvoiceDone);
    var s3 := Complete(order, s2, DraftDone);
    assert s2.executionSteps == [EmailCheckEntry(customEmail), InvoiceGenerated];
    assert CompleteAll(order, s3, []) == s3;
    assert [EmailChecked(customEmail), InvoiceDone, DraftDone][1..] == [InvoiceDone, DraftDone];
    assert [InvoiceDone, DraftDone][1..] == [DraftDone];
  }

  class OrderProcessingModal {
    const order: Order
    var currentStep: ProcessingStep
    var processedOrder: Order
    var executionSteps: seq<string>

    function State(): ModalState
      reads this
    {
      ModalState(currentStep, processedOrder, executionSteps)
    }

    /** Mounting, including the effect that picks the first step from the status. */
    constructor (order: Order)
      ensures this.order == order && State() == Initial(order)
    {
      this.order := order;
      currentStep := EmailCheck;
      processedOrder := order;
      executionSteps := [];
      new;
      if order.status == Unread || order.status == Pending {
        currentStep := EmailCheck;
      } else if order.status == Quotations || order.status == Invoices {
        currentStep := ViewHistory;
      }
    }

    method HandleEmailCheckComplete(customEmail: Option<string>)
      modifies this
      ensures State() == EmailCheckComplete(order, old(State()), customEmail)
    {
      executionSteps := executionSteps + [if customEmail.Some? && customEmail.value != "" then CustomEmailSent else EmailVerified];
      if order.kind == Some(Enquiry) {
        currentStep := Quotation;
      } else if order.kind == Some(PurchaseOrder) {
        currentStep := Invoice;
      }
    }

    method HandleQuotationComplete()
      modifies this
      ensures State() == QuotationComplete(old(State()))
    {
      executionSteps := executionSteps + [QuotationGenerated];
      currentStep := EmailDraft;
    }

    method HandleInvoiceComplete()
      modifies this
      ensures State() == InvoiceComplete(old(State()))
    {
      executionSteps := executionSteps + [InvoiceGenerated];
      currentStep := EmailDraft;
    }

    method HandleEmailDraftComplete()
      modifies this
      ensures State() == EmailDraftComplete(order, old(State()))
    {
      var logged := executionSteps;
      executionSteps := executionSteps + [EmailSentWithAttachment];
      var updatedOrder := processedOrder.(status := if order.kind == Some(Enquiry) then Quotations else Invoices,
                                          processedDetails := Some(ProcessedDetails(logged)));
      processedOrder := updatedOrder;
      currentStep := Success;
    }

    /** Returns the callbacks in the order they are called. */
    method HandleSuccess() returns (calls: seq<Callback>)
      ensures calls == SuccessCallbacks(State())
    {
      calls := [Processed(processedOrder)];
      calls := calls + [Closed];
    }
  }
}
