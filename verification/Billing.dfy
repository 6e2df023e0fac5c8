/** Invoices, payments and provider callbacks (backend/app/modules/pricing/billing.py). */
module Billing {
  import opened Common
  import opened Fees

  datatype Transaction = Transaction(checkIn: int, parked: bool, snapshot: Option<Snapshot>)

  datatype Invite = Invite(code: string, validFrom: int, validUntil: int, freeMinutes: nat, redeemed: bool)

  datatype InvoiceStatus = Open | InvoicePaid | InvoiceRefunded

  datatype Invoice = Invoice(
    transaction: nat, status: InvoiceStatus, checkOut: int, lost: bool, overtime: bool,
    extraFree: nat, invite: Option<nat>, total: int, lines: seq<FeeLine>)

  datatype PaymentMethod = Cash | VietQr

  datatype PaymentStatus = Pending | Processing | Paid | Failed | Refunded

  datatype ProviderStatus = ProviderPaid | ProviderFailed | ProviderProcessing | ProviderRefunded

  datatype Payment = Payment(
    invoice: nat, ref: Option<nat>, key: string, means: PaymentMethod, status: PaymentStatus,
    amount: int, confirmed: bool, providerAmount: Option<int>, providerStatus: Option<ProviderStatus>)

  /** The billing tables of one building. A row is identified by its position. */
  datatype Books = Books(transactions: seq<Transaction>, invites: seq<Invite>,
                         invoices: seq<Invoice>, payments: seq<Payment>)

  datatype InvoiceRequest = InvoiceRequest(
    transaction: nat, checkOut: int, lost: bool, overtime: bool, extraFree: nat, code: Option<string>)

  datatype Callback = Callback(ref: nat, amount: nat, status: ProviderStatus)

  datatype BillingError =
    | TransactionNotFound | InvoiceExists | NotParked | PriceMissing | InviteUnavailable
    | InviteExpired | InvalidCheckout | InvoiceNotFound | IdempotencyConflict | InvoiceAlreadyPaid
    | PaymentPending | PaymentNotFound | InvalidPaymentMethod | RefundAmountMismatch | PaymentFinal

  // ---------------------------------------------------------------------------------------
  // Invoices
  // ---------------------------------------------------------------------------------------

  function ForTransaction(t: nat): Invoice -> bool { (i: Invoice) => i.transaction == t }

  function WithCode(code: string): Invite -> bool { (i: Invite) => i.code == code }

  /** What a request leads to: an invoice that is already there, or a new one. */
  datatype InvoiceDecision = Existing(row: nat) | Fresh(invite: Option<nat>)

  function InviteCode(b: Books, i: Invoice): Option<string> {
    if i.invite.Some? && i.invite.value < |b.invites| then Some(b.invites[i.invite.value].code) else None
  }

  function InviteMinutes(b: Books, invite: Option<nat>): nat {
    if invite.Some? && invite.value < |b.invites| then b.invites[invite.value].freeMinutes else 0
  }

  /** The stored invoice is the one that this request made. */
  predicate SameRequest(b: Books, i: Invoice, req: InvoiceRequest) {
    && i.checkOut == req.checkOut && i.lost == req.lost && i.overtime == req.overtime
    && i.extraFree == req.extraFree + InviteMinutes(b, i.invite)
    && InviteCode(b, i) == req.code
  }

  function FindInvite(b: Books, req: InvoiceRequest): Result<Option<nat>, BillingError> {
    if req.code.None? || req.code.value == "" then Success(None)
    else
      var row := First(b.invites, WithCode(req.code.value));
      if row.None? || b.invites[row.value].redeemed then Failure(InviteUnavailable)
      else if !(b.invites[row.value].validFrom <= req.checkOut <= b.invites[row.value].validUntil) then
        Failure(InviteExpired)
      else Success(row)
  }

  function DecideInvoice(b: Books, req: InvoiceRequest): (r: Result<InvoiceDecision, BillingError>)
    ensures r.Success? ==> req.transaction < |b.transactions|
    ensures r.Success? && r.value.Existing? ==> r.value.row < |b.invoices|
    ensures r.Success? && r.value.Fresh? ==> b.transactions[req.transaction].snapshot.Some?
    ensures r.Success? && r.value.Fresh? && r.value.invite.Some? ==> r.value.invite.value < |b.invites|
  {
    if req.transaction >= |b.transactions| then Failure(TransactionNotFound)
    else
      var existing := First(b.invoices, ForTransaction(req.transaction));
      var t := b.transactions[req.transaction];
      if existing.Some? then
        if SameRequest(b, b.invoices[existing.value], req) then Success(Existing(existing.value))
        else Failure(InvoiceExists)
      else if !t.parked then Failure(NotParked)
      else if t.snapshot.None? then Failure(PriceMissing)
      else
        var invite := FindInvite(b, req);
        if invite.Failure? then Failure(invite.error)
        else if req.checkOut <= t.checkIn then Failure(InvalidCheckout)
        else Success(Fresh(invite.value))
  }

  /** The price snapshots that check-in stored satisfy their field constraints. */
  ghost predicate SnapshotsValid(b: Books) {
    forall t :: t in b.transactions && t.snapshot.Some? ==> Valid(t.snapshot.value)
  }

  function NewInvoice(b: Books, day: DayOf, req: InvoiceRequest, invite: Option<nat>): Invoice
    requires req.transaction < |b.transactions| && b.transactions[req.transaction].snapshot.Some?
    requires Valid(b.transactions[req.transaction].snapshot.value)
  {
    var t := b.transactions[req.transaction];
    var s := t.snapshot.value;
    var extra := req.extraFree + InviteMinutes(b, invite);
    var fee := FeeOf(s, day, t.checkIn, req.checkOut, req.lost, req.overtime, extra);
    Invoice(req.transaction, Open, req.checkOut, req.lost, req.overtime, extra, invite, fee.total, fee.lines)
  }

  function Redeemed(invites: seq<Invite>, row: Option<nat>): seq<Invite> {
    if row.Some? && row.value < |invites| then invites[row.value := invites[row.value].(redeemed := true)]
    else invites
  }

  function AfterInvoice(b: Books, day: DayOf, req: InvoiceRequest): Books
    requires SnapshotsValid(b)
  {
    var d := DecideInvoice(b, req);
    if d.Success? && d.value.Fresh? then
      assert b.transactions[req.transaction] in b.transactions;
      b.(invoices := b.invoices + [NewInvoice(b, day, req, d.value.invite)],
         invites := Redeemed(b.invites, d.value.invite))
    else b
  }

  // ---------------------------------------------------------------------------------------
  // Payments
  // ---------------------------------------------------------------------------------------

  function WithKey(invoice: nat, key: string): Payment -> bool {
    (p: Payment) => p.invoice == invoice && p.key == key
  }

  function Unfinished(invoice: nat): Payment -> bool {
    (p: Payment) => p.invoice == invoice && p.status in {Pending, Processing}
  }

  function WithRef(ref: nat): Payment -> bool { (p: Payment) => p.ref == Some(ref) }

  /** The row a payment request leads to: an earlier one with the same key, or a new one. */
  function DecidePayment(b: Books, invoice: nat, means: PaymentMethod, key: string)
    : (r: Result<nat, BillingError>)
    ensures r.Success? ==> invoice < |b.invoices| && r.value <= |b.payments|
  {
    if invoice >= |b.invoices| then Failure(InvoiceNotFound)
    else
      var existing := First(b.payments, WithKey(invoice, key));
      if existing.Some? then
        if b.payments[existing.value].means != means then Failure(IdempotencyConflict)
        else Success(existing.value)
      else if b.invoices[invoice].status == InvoicePaid then Failure(InvoiceAlreadyPaid)
      else if First(b.payments, Unfinished(invoice)).Some? then Failure(PaymentPending)
      else Success(|b.payments|)
  }

  function SetInvoice(b: Books, row: nat, status: InvoiceStatus): Books
    requires row < |b.invoices|
  {
    b.(invoices := b.invoices[row := b.invoices[row].(status := status)])
  }

  /** A cash payment is paid at once; a transfer waits for the provider under a fresh reference. */
  function AfterPayment(b: Books, invoice: nat, means: PaymentMethod, key: string): Books {
    var d := DecidePayment(b, invoice, means, key);
    if d.Failure? || d.value < |b.payments| then b
    else
      var total := b.invoices[invoice].total;
      if means == Cash then
        SetInvoice(
          b.(payments := b.payments + [Payment(invoice, None, key, Cash, Paid, total, true, None, None)]),
          invoice, InvoicePaid)
      else
        b.(payments := b.payments
             + [Payment(invoice, Some(|b.payments|), key, VietQr, Pending, total, false, None, None)])
  }

  // ---------------------------------------------------------------------------------------
  // Callbacks
  // ---------------------------------------------------------------------------------------

  datatype CallbackDecision = Replay(row: nat) | Refund(row: nat) | Settle(row: nat)

  function DecideCallback(b: Books, c: Callback): (r: Result<CallbackDecision, BillingError>)
    ensures r.Success? ==> r.value.row < |b.payments| && b.payments[r.value.row].ref == Some(c.ref)
    ensures r.Success? ==> b.payments[r.value.row].means == VietQr
    ensures r.Success? && !r.value.Replay? ==>
      !(b.payments[r.value.row].providerStatus == Some(c.status)
        && b.payments[r.value.row].providerAmount == Some(c.amount))
    ensures r.Success? && r.value.Refund? ==>
      var p := b.payments[r.value.row];
      p.status == Paid && c.status == ProviderRefunded && c.amount == p.amount
    ensures r.Success? && r.value.Settle? ==> b.payments[r.value.row].status !in {Paid, Refunded}
  {
    var row := First(b.payments, WithRef(c.ref));
    if row.None? then Failure(PaymentNotFound)
    else
      var p := b.payments[row.value];
      if p.means != VietQr then Failure(InvalidPaymentMethod)
      else if p.providerStatus == Some(c.status) && p.providerAmount == Some(c.amount) then
        Success(Replay(row.value))
      else if p.status == Paid && c.status == ProviderRefunded then
        if c.amount != p.amount then Failure(RefundAmountMismatch) else Success(Refund(row.value))
      else if p.status in {Paid, Refunded} then Failure(PaymentFinal)
      else Success(Settle(row.value))
  }

  function StatusOf(s: ProviderStatus): PaymentStatus {
    match s
    case ProviderPaid => Paid
    case ProviderFailed => Failed
    case ProviderProcessing => Processing
    case ProviderRefunded => Refunded
  }

  /** The payment after a callback that is neither a replay nor a refund. */
  function Settled(p: Payment, total: int, c: Callback): Payment {
    var heard := p.(providerStatus := Some(c.status), providerAmount := Some(c.amount));
    if c.amount != p.amount || c.amount != total then heard.(status := Failed)
    else heard.(status := StatusOf(c.status),
                confirmed := p.confirmed || c.status == ProviderPaid)
  }

  function AfterCallback(b: Books, c: Callback): Books {
    var d := DecideCallback(b, c);
    if d.Failure? || d.value.Replay? then b
    else
      var row := d.value.row;
      var p := b.payments[row];
      if p.invoice >= |b.invoices| then b
      else if d.value.Refund? then
        var p' := p.(providerStatus := Some(c.status), providerAmount := Some(c.amount), status := Refunded);
        SetInvoice(b.(payments := b.payments[row := p']), p.invoice, InvoiceRefunded)
      else
        var p' := Settled(p, b.invoices[p.invoice].total, c);
        var b' := b.(payments := b.payments[row := p']);
        if p'.status == Paid then SetInvoice(b', p.invoice, InvoicePaid) else b'
  }

  // ---------------------------------------------------------------------------------------
  // The reconciliation report
  // ---------------------------------------------------------------------------------------

  datatype Reason = AmountMismatch | StatusMismatch | InvoiceStatusMismatch

  function Reasons(p: Payment, i: Invoice): seq<Reason> {
    (if p.providerAmount.Some? && p.providerAmount.value != i.total then [AmountMismatch] else [])
    + (if p.providerStatus == Some(ProviderPaid) && p.status != Paid then [StatusMismatch] else [])
    + (if p.status == Paid && i.status != InvoicePaid then [InvoiceStatusMismatch] else [])
  }

  method ReasonsOf(p: Payment, i: Invoice) returns (reasons: seq<Reason>)
    ensures reasons == Reasons(p, i)
  {
    reasons := [];
    if p.providerAmount.Some? && p.providerAmount.value != i.total {
      reasons := reasons + [AmountMismatch];
    }
    if p.providerStatus == Some(ProviderPaid) && p.status != Paid {
      reasons := reasons + [StatusMismatch];
    }
    if p.status == Paid && i.status != InvoicePaid {
      reasons := reasons + [InvoiceStatusMismatch];
    }
  }

  datatype Mismatch = Mismatch(payment: nat, invoice: nat, reasons: seq<Reason>)

  function ReportedFor(b: Books, row: nat): seq<Mismatch>
    requires row < |b.payments|
  {
    var p := b.payments[row];
    var reasons := if p.means == VietQr && p.invoice < |b.invoices| then Reasons(p, b.invoices[p.invoice]) else [];
    if reasons == [] then [] else [Mismatch(row, p.invoice, reasons)]
  }

  function Report(b: Books, n: nat): seq<Mismatch>
    requires n <= |b.payments|
  {
    if n == 0 then [] else Report(b, n - 1) + ReportedFor(b, n - 1)
  }

  // ---------------------------------------------------------------------------------------
  // The billing desk
  // ---------------------------------------------------------------------------------------

  class BillingDesk {
    var transactions: seq<Transaction>
    var invites: seq<Invite>
    var invoices: seq<Invoice>
    var payments: seq<Payment>

    function View(): Books
      reads this
    {
      Books(transactions, invites, invoices, payments)
    }

    method CreateInvoice(day: DayOf, req: InvoiceRequest) returns (r: Result<nat, BillingError>)
      requires SnapshotsValid(View())
      modifies this
      ensures View() == AfterInvoice(old(View()), day, req)
      ensures var d := DecideInvoice(old(View()), req);
              r == match d
                   case Failure(e) => Failure(e)
                   case Success(Existing(row)) => Success(row)
                   case Success(Fresh(_)) => Success(|old(invoices)|)
    {
      hide Total, ItemisedLines;
      if req.transaction >= |transactions| {
        return Failure(TransactionNotFound);
      }
      var t := transactions[req.transaction];
      var existing := First(invoices, ForTransaction(req.transaction));
      if existing.Some? {
        if SameRequest(View(), invoices[existing.value], req) {
          return Success(existing.value);
        }
        return Failure(InvoiceExists);
      }
      if !t.parked {
        return Failure(NotParked);
      }
      if t.snapshot.None? {
        return Failure(PriceMissing);
      }
      var invite := FindInvite(View(), req);
      if invite.Failure? {
        return Failure(invite.error);
      }
      if req.checkOut <= t.checkIn {
        return Failure(InvalidCheckout);
      }
      var extra := req.extraFree + InviteMinutes(View(), invite.value);
      assert t in View().transactions;
      var fee := CalculateFee(t.checkIn, req.checkOut, t.snapshot.value, day, req.lost, req.overtime, extra);
      var invoice := Invoice(req.transaction, Open, req.checkOut, req.lost, req.overtime, extra,
                             invite.value, fee.value.total, fee.value.lines);
      assert invoice == NewInvoice(View(), day, req, invite.value);
      invoices := invoices + [invoice];
      if invite.value.Some? {
        var row := invite.value.value;
        invites := invites[row := invites[row].(redeemed := true)];
      }
      r := Success(|invoices| - 1);
    }

    method CreatePayment(invoice: nat, means: PaymentMethod, key: string)
      returns (r: Result<nat, BillingError>)
      modifies this
      ensures View() == AfterPayment(old(View()), invoice, means, key)
      ensures r == DecidePayment(old(View()), invoice, means, key)
    {
      if invoice >= |invoices| {
        return Failure(InvoiceNotFound);
      }
      var existing := First(payments, WithKey(invoice, key));
      if existing.Some? {
        if payments[existing.value].means != means {
          return Failure(IdempotencyConflict);
        }
        return Success(existing.value);
      }
      if invoices[invoice].status == InvoicePaid {
        return Failure(InvoiceAlreadyPaid);
      }
      var pending := First(payments, Unfinished(invoice));
      if pending.Some? {
        return Failure(PaymentPending);
      }
      var row := |payments|;
      payments := payments + [Payment(
        invoice, if means == VietQr then Some(row) else None, key, means,
        if means == Cash then Paid else Pending, invoices[invoice].total, means == Cash, None, None)];
      if means == Cash {
        invoices := invoices[invoice := invoices[invoice].(status := InvoicePaid)];
      }
      r := Success(row);
    }

    method ApplyCallback(c: Callback) returns (r: Result<nat, BillingError>)
      requires forall p :: p in payments ==> p.invoice < |invoices|
      modifies this
      ensures View() == AfterCallback(old(View()), c)
      ensures var d := DecideCallback(old(View()), c);
              r == if d.Success? then Success(d.value.row) else Failure(d.error)
    {
      var found := First(payments, WithRef(c.ref));
      if found.None? {
        return Failure(PaymentNotFound);
      }
      var row := found.value;
      var p := payments[row];
      assert p in payments;
      if p.means != VietQr {
        return Failure(InvalidPaymentMethod);
      }
      if p.providerStatus == Some(c.status) && p.providerAmount == Some(c.amount) {
        return Success(row);
      }
      if p.status == Paid && c.status == ProviderRefunded {
        if c.amount != p.amount {
          return Failure(RefundAmountMismatch);
        }
        p := p.(providerStatus := Some(c.status), providerAmount := Some(c.amount));
        p := p.(status := Refunded);
        payments := payments[row := p];
        invoices := invoices[p.invoice := invoices[p.invoice].(status := InvoiceRefunded)];
        return Success(row);
      }
      if p.status in {Paid, Refunded} {
        return Failure(PaymentFinal);
      }
      p := p.(providerStatus := Some(c.status), providerAmount := Some(c.amount));
      if c.amount != p.amount || c.amount != invoices[p.invoice].total {
        p := p.(status := Failed);
      } else {
        p := p.(status := StatusOf(c.status));
        if c.status == ProviderPaid {
          p := p.(confirmed := true);
          invoices := invoices[p.invoice := invoices[p.invoice].(status := InvoicePaid)];
        }
      }
      payments := payments[row := p];
      r := Success(row);
    }

    method ReconcilePayments() returns (mismatches: seq<Mismatch>)
      requires forall p :: p in payments ==> p.invoice < |invoices|
      ensures mismatches == Report(View(), |payments|)
    {
      mismatches := [];
      ghost var b := View();
      for row := 0 to |payments|
        invariant mismatches == Report(b, row)
      {
        var p := payments[row];
        assert p in payments;
        ghost var before := mismatches;
        if p.means == VietQr {
          var reasons := ReasonsOf(p, invoices[p.invoice]);
          if reasons != [] {
            mismatches := mismatches + [Mismatch(row, p.invoice, reasons)];
          }
        }
        assert mismatches == before + ReportedFor(b, row);
      }
    }
  }

  // ---------------------------------------------------------------------------------------
  // Runs
  // ---------------------------------------------------------------------------------------

  datatype Step =
    | Arrive(t: Transaction)                       // a check-in stores a transaction
    | Depart(row: nat)                             // the transaction is no longer parked
    | IssueInvite(invite: Invite)
    | MakeInvoice(req: InvoiceRequest)
    | MakePayment(invoice: nat, means: PaymentMethod, key: string)
    | Hear(callback: Callback)

  function Next(b: Books, day: DayOf, step: Step): Books
    requires SnapshotsValid(b)
  {
    match step
    case Arrive(t) =>
      if t.snapshot.Some? && !Valid(t.snapshot.value) then b
      else b.(transactions := b.transactions + [t])
    case Depart(row) =>
      if row < |b.transactions|
      then b.(transactions := b.transactions[row := b.transactions[row].(parked := false)])
      else b
    case IssueInvite(invite) =>
      // Invite codes are unique in a building.
      if invite.redeemed || First(b.invites, WithCode(invite.code)).Some? then b
      else b.(invites := b.invites + [invite])
    case MakeInvoice(req) => AfterInvoice(b, day, req)
    case MakePayment(invoice, means, key) => AfterPayment(b, invoice, means, key)
    case Hear(c) => AfterCallback(b, c)
  }

  lemma SnapshotsStayValid(b: Books, day: DayOf, step: Step)
    requires SnapshotsValid(b)
    ensures SnapshotsValid(Next(b, day, step))
  {
  }

  /** The books after a run. */
  ghost function Run(b: Books, day: DayOf, steps: seq<Step>): (r: Books)
    requires SnapshotsValid(b)
    ensures SnapshotsValid(r)
  {
    if steps == [] then b
    else
      var n := |steps| - 1;
      SnapshotsStayValid(Run(b, day, steps[..n]), day, steps[n]);
      Next(Run(b, day, steps[..n]), day, steps[n])
  }

  const EMPTY_BOOKS := Books([], [], [], [])
}
