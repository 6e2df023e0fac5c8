/** What each billing call does in terms of rows: the invoice a request makes, the payment it adds, what a
    callback changes and what the report shows (backend/app/modules/pricing/billing.py). */
module BillingOutcomes {
  import opened Common
  import opened Fees
  import opened Billing
  import opened BillingRuns

  // ---------------------------------------------------------------------------------------
  // Invoices
  // ---------------------------------------------------------------------------------------

  /** The free minutes that an invoice gets from the invite it names. */
  function Granted(b: Books, v: Invoice): nat {
    if v.invite.Some? && v.invite.value < |b.invites| then b.invites[v.invite.value].freeMinutes else 0
  }

  /** The invoice is for what the request asked: its transaction, check-out and marks, the minutes asked for
      and those of the invite with its code, and the fee of the transaction's stored price with all of it. */
  ghost predicate AsRequested(b: Books, day: DayOf, v: Invoice, req: InvoiceRequest) {
    && v.transaction == req.transaction < |b.transactions|
    && v.checkOut == req.checkOut && v.lost == req.lost && v.overtime == req.overtime
    && (if v.invite.Some? then v.invite.value < |b.invites| && req.code == Some(b.invites[v.invite.value].code)
        else req.code.None? || req.code.value == "")
    && v.extraFree == req.extraFree + Granted(b, v)
    && var t := b.transactions[req.transaction];
       && t.snapshot.Some? && Valid(t.snapshot.value)
       && v.total == FeeOf(t.snapshot.value, day, t.checkIn, v.checkOut, v.lost, v.overtime, v.extraFree).total
       && v.lines == FeeOf(t.snapshot.value, day, t.checkIn, v.checkOut, v.lost, v.overtime, v.extraFree).lines
  }

  /** A request for an invoice adds one open invoice, as requested, and redeems the usable invite it names, or
      changes nothing. */
  lemma InvoiceIsAsRequested(b: Books, day: DayOf, req: InvoiceRequest)
    requires SnapshotsValid(b)
    ensures var b', n := AfterInvoice(b, day, req), |b.invoices|;
            b' != b ==>
              && |b'.invoices| == n + 1 && b'.invoices[..n] == b.invoices
              && b'.transactions == b.transactions && b'.payments == b.payments && |b'.invites| == |b.invites|
              && b'.invoices[n].status == Open && AsRequested(b, day, b'.invoices[n], req)
              && (b'.invoices[n].invite.Some? ==> InviteUsable(b, b'.invoices[n].invite.value, req))
              && forall r :: 0 <= r < |b.invites| ==>
                   b'.invites[r] == if b'.invoices[n].invite == Some(r) then b.invites[r].(redeemed := true)
                                    else b.invites[r]
  {
    hide First, FeeOf;
    if AfterInvoice(b, day, req) != b {
      assert b.transactions[req.transaction] in b.transactions;
      forall i | 0 <= i < |b.invites| && req.code.Some?
        ensures WithCode(req.code.value)(b.invites[i]) <==> b.invites[i].code == req.code.value
      {
      }
    }
  }

  /** A request is answered with an earlier invoice exactly when that is the one of its transaction and was made
      for the same check-out, marks, minutes and invite code. */
  lemma InvoiceReplayedExactly(b: Books, req: InvoiceRequest, row: nat)
    requires Sound(b) && row < |b.invoices| && b.invoices[row].transaction == req.transaction
    ensures DecideInvoice(b, req) ==
              var v := b.invoices[row];
              var code := if v.invite.Some? && v.invite.value < |b.invites| then Some(b.invites[v.invite.value].code)
                          else None;
              if v.checkOut == req.checkOut && v.lost == req.lost && v.overtime == req.overtime
                 && v.extraFree == req.extraFree + Granted(b, v) && code == req.code
              then Success(Existing(row)) else Failure(InvoiceExists)
  {
    hide First, Count, LineSum;
    assert InvoiceSound(b, row);
    assert ForTransaction(req.transaction)(b.invoices[row]);
    assert First(b.invoices, ForTransaction(req.transaction)) == Some(row);
  }

  /** A transaction keeps its check-in and its stored price. */
  ghost predicate PricesStay(b: Books, b': Books) {
    && |b.transactions| <= |b'.transactions|
    && forall t :: 0 <= t < |b.transactions| ==>
         && b'.transactions[t].checkIn == b.transactions[t].checkIn
         && b'.transactions[t].snapshot == b.transactions[t].snapshot
  }

  lemma NextKeepsPrices(b: Books, day: DayOf, step: Step)
    requires SnapshotsValid(b)
    ensures PricesStay(b, Next(b, day, step))
  {
    hide First, FeeOf;
  }

  lemma RequestStays(b: Books, b': Books, day: DayOf, v: Invoice, v': Invoice, req: InvoiceRequest)
    requires AsRequested(b, day, v, req) && Extends(b, b') && PricesStay(b, b') && SameInvoice(v', v)
    ensures AsRequested(b', day, v', req)
  {
    hide FeeOf;
    assert v' == v.(status := v'.status);
  }

  /** The request of step `k` made the invoice. */
  ghost predicate MadeBy(b: Books, day: DayOf, steps: seq<Step>, k: nat, v: Invoice) {
    k < |steps| && steps[k].MakeInvoice? && AsRequested(b, day, v, steps[k].req)
  }

  /** On every run every invoice is as some request of the run asked: the free minutes of an invite reach it,
      and its fee is that of its transaction with all its minutes, for as long as it stands. */
  lemma {:induction false} InvoicesAreAsRequested(day: DayOf, steps: seq<Step>, i: nat)
    requires i < |Run(EMPTY_BOOKS, day, steps).invoices|
    ensures var b := Run(EMPTY_BOOKS, day, steps);
            exists k: nat :: MadeBy(b, day, steps, k, b.invoices[i])
  {
    hide AsRequested, Extends, PricesStay, SameInvoice, AfterInvoice, AfterPayment, AfterCallback;
    if steps != [] {
      var n := |steps| - 1;
      var before := Run(EMPTY_BOOKS, day, steps[..n]);
      var b := Run(EMPTY_BOOKS, day, steps);
      NextExtends(before, day, steps[n]);
      NextKeepsPrices(before, day, steps[n]);
      if i < |before.invoices| {
        InvoicesAreAsRequested(day, steps[..n], i);
        var k: nat :| MadeBy(before, day, steps[..n], k, before.invoices[i]);
        InvoiceStays(before, b, i);
        RequestStays(before, b, day, before.invoices[i], b.invoices[i], steps[k].req);
        assert MadeBy(b, day, steps, k, b.invoices[i]);
      } else {
        NewInvoicesAreRequested(before, day, steps[n]);
        InvoiceStays(b, b, i);
        RequestStays(before, b, day, b.invoices[i], b.invoices[i], steps[n].req);
        assert MadeBy(b, day, steps, n, b.invoices[i]);
      }
    }
  }

  lemma InvoiceStays(b: Books, b': Books, i: nat)
    requires i < |b.invoices| && (Extends(b, b') || b == b')
    ensures i < |b'.invoices| && SameInvoice(b'.invoices[i], b.invoices[i])
  {
  }

  lemma NewInvoicesAreRequested(b: Books, day: DayOf, step: Step)
    requires SnapshotsValid(b)
    ensures var b' := Next(b, day, step);
            |b'.invoices| > |b.invoices| ==>
              && step.MakeInvoice? && |b'.invoices| == |b.invoices| + 1
              && AsRequested(b, day, b'.invoices[|b.invoices|], step.req)
  {
    hide AsRequested, FeeOf, First;
    if step.MakeInvoice? {
      InvoiceIsAsRequested(b, day, step.req);
    }
  }

  // ---------------------------------------------------------------------------------------
  // Payments
  // ---------------------------------------------------------------------------------------

  /** A payment is added exactly for an invoice that is not paid, with a new key and no unfinished payment. It
      is for the whole total; cash is paid at once and pays the invoice, a transfer is pending under a
      reference of its own. */
  lemma PaymentMadeExactly(b: Books, invoice: nat, means: PaymentMethod, key: string)
    requires Sound(b)
    ensures var b', n := AfterPayment(b, invoice, means, key), |b.payments|;
            if invoice < |b.invoices| && b.invoices[invoice].status != InvoicePaid
               && (forall i :: 0 <= i < n && b.payments[i].invoice == invoice ==>
                     b.payments[i].key != key && b.payments[i].status !in {Pending, Processing})
            then
              && |b'.payments| == n + 1 && b'.payments[..n] == b.payments
              && (var p := b'.payments[n];
                  && p.invoice == invoice && p.key == key && p.means == means
                  && p.amount == b.invoices[invoice].total && p.providerStatus == None && p.providerAmount == None
                  && (if means == Cash then p.status == Paid && p.confirmed && p.ref == None
                      else p.status == Pending && !p.confirmed && p.ref.Some?
                           && forall i :: 0 <= i < n ==> b.payments[i].ref != p.ref))
              && b' == b.(payments := b'.payments,
                          invoices := if means == Cash
                                      then b.invoices[invoice := b.invoices[invoice].(status := InvoicePaid)]
                                      else b.invoices)
            else b' == b
  {
    hide First, Count, LineSum;
    forall i | 0 <= i < |b.payments|
      ensures WithKey(invoice, key)(b.payments[i]) <==> b.payments[i].invoice == invoice && b.payments[i].key == key
      ensures Unfinished(invoice)(b.payments[i])
         <==> b.payments[i].invoice == invoice && b.payments[i].status in {Pending, Processing}
      ensures b.payments[i].ref != Some(|b.payments|)
    {
      assert PaymentSound(b, i);
    }
  }

  /** A request is answered with an earlier payment of its invoice under its key exactly when that is by the same
      means. */
  lemma PaymentReplayedExactly(b: Books, invoice: nat, means: PaymentMethod, key: string, row: nat)
    requires Sound(b) && row < |b.payments| && b.payments[row].invoice == invoice && b.payments[row].key == key
    ensures DecidePayment(b, invoice, means, key)
         == if b.payments[row].means == means then Success(row) else Failure(IdempotencyConflict)
  {
    hide First, Count, LineSum;
    assert PaymentSound(b, row) && WithKey(invoice, key)(b.payments[row]);
    assert First(b.payments, WithKey(invoice, key)) == Some(row);
  }

  // ---------------------------------------------------------------------------------------
  // Callbacks
  // ---------------------------------------------------------------------------------------

  /** The report is new for the payment, and the payment is open to it: not yet paid or refunded, or paid and
      now refunded in full. */
  predicate OpenTo(p: Payment, c: Callback) {
    && !(p.providerStatus == Some(c.status) && p.providerAmount == Some(c.amount))
    && (p.status !in {Paid, Refunded} || (p.status == Paid && c.status == ProviderRefunded && c.amount == p.amount))
  }

  /** A callback writes its report to the payment with its reference exactly when that is open to it, and
      otherwise changes nothing; no other payment changes. */
  lemma HeardExactly(b: Books, c: Callback, row: nat)
    requires Sound(b) && row < |b.payments|
    ensures var b' := AfterCallback(b, c);
            && |b'.payments| == |b.payments|
            && (if b.payments[row].ref == Some(c.ref) && OpenTo(b.payments[row], c) then
                  && b'.payments[row].providerStatus == Some(c.status)
                  && b'.payments[row].providerAmount == Some(c.amount)
                  && SamePayment(b'.payments[row], b.payments[row])
                else b'.payments[row] == b.payments[row])
    ensures (forall i :: 0 <= i < |b.payments| ==> b.payments[i].ref != Some(c.ref)) ==> AfterCallback(b, c) == b
  {
    hide First, Count, LineSum;
    assert PaymentSound(b, row);
    var found := First(b.payments, WithRef(c.ref));
    if found.Some? {
      assert PaymentSound(b, found.value);
    }
    if b.payments[row].ref == Some(c.ref) {
      assert WithRef(c.ref)(b.payments[row]);
    }
  }

  /** The status of a payment is what was last reported of it: cash is paid; a transfer without a report is
      pending, one reported with another amount has failed, and any other stands as reported. */
  predicate FollowsReport(p: Payment, total: int) {
    if p.means == Cash then p.status == Paid && p.providerStatus == None && p.providerAmount == None
    else if p.providerStatus.None? then p.status == Pending && p.providerAmount == None
    else
      && p.providerAmount.Some?
      && p.status == (if p.providerAmount.value != total then Failed
                      else match p.providerStatus.value
                           case ProviderPaid => Paid
                           case ProviderFailed => Failed
                           case ProviderProcessing => Processing
                           case ProviderRefunded => Refunded)
  }

  ghost predicate AllFollow(b: Books) {
    forall i :: 0 <= i < |b.payments| ==>
      b.payments[i].invoice < |b.invoices| && FollowsReport(b.payments[i], b.invoices[b.payments[i].invoice].total)
  }

  lemma HearFollows(b: Books, c: Callback)
    requires Sound(b) && AllFollow(b)
    ensures AllFollow(AfterCallback(b, c))
  {
    hide First, Count, LineSum;
    var d := DecideCallback(b, c);
    if d.Success? {
      assert PaymentSound(b, d.value.row);
    }
  }

  lemma NextFollows(b: Books, day: DayOf, step: Step)
    requires Sound(b) && AllFollow(b)
    ensures AllFollow(Next(b, day, step))
  {
    hide First, Count, LineSum, FeeOf, AfterCallback;
    match step
    case Hear(c) => HearFollows(b, c);
    case _ =>
  }

  /** On every run the status of every payment follows its last report. */
  lemma {:induction false} StatusFollowsReport(day: DayOf, steps: seq<Step>)
    ensures AllFollow(Run(EMPTY_BOOKS, day, steps))
  {
    hide AllFollow, Next;
    EmptyBooksAreSound();
    if steps == [] {
      NothingToFollow();
    } else {
      var n := |steps| - 1;
      StatusFollowsReport(day, steps[..n]);
      RunIsSound(EMPTY_BOOKS, day, steps[..n]);
      NextFollows(Run(EMPTY_BOOKS, day, steps[..n]), day, steps[n]);
    }
  }

  lemma NothingToFollow()
    ensures AllFollow(EMPTY_BOOKS)
  {
  }

  /** A payment of the invoice is paid by the step. */
  ghost predicate BecomesPaid(b: Books, b': Books, i: nat, j: nat) {
    && j < |b'.payments| && b'.payments[j].invoice == i && b'.payments[j].status == Paid
    && (j < |b.payments| ==> b.payments[j].status != Paid)
  }

  /** A paid payment of the invoice is refunded by the step. */
  ghost predicate BecomesRefunded(b: Books, b': Books, i: nat, j: nat) {
    && j < |b.payments| && j < |b'.payments| && b.payments[j].invoice == i
    && b.payments[j].status == Paid && b'.payments[j].status == Refunded
  }

  function StatusAfter(paid: bool, refunded: bool, before: InvoiceStatus): InvoiceStatus {
    if paid then InvoicePaid else if refunded then InvoiceRefunded else before
  }

  lemma InvoiceFollowsCallback(b: Books, c: Callback, i: nat)
    requires Sound(b) && i < |b.invoices|
    ensures var b' := AfterCallback(b, c);
            && i < |b'.invoices|
            && b'.invoices[i].status
               == StatusAfter(exists j: nat :: BecomesPaid(b, b', i, j), exists j: nat :: BecomesRefunded(b, b', i, j),
                              b.invoices[i].status)
  {
    hide First, Count, LineSum;
    var d, b' := DecideCallback(b, c), AfterCallback(b, c);
    if d.Success? && !d.value.Replay? {
      var row := d.value.row;
      assert PaymentSound(b, row);
      assert b'.payments[row].status == Paid && b.payments[row].invoice == i ==> BecomesPaid(b, b', i, row);
      assert d.value.Refund? && b.payments[row].invoice == i ==> BecomesRefunded(b, b', i, row);
    }
  }

  /** An invoice becomes paid exactly when one of its payments does, refunded exactly when a paid one is
      refunded, and otherwise keeps its status. */
  lemma InvoiceFollowsPayments(b: Books, day: DayOf, step: Step, i: nat)
    requires Sound(b) && i < |b.invoices|
    ensures var b' := Next(b, day, step);
            && i < |b'.invoices|
            && b'.invoices[i].status
               == StatusAfter(exists j: nat :: BecomesPaid(b, b', i, j), exists j: nat :: BecomesRefunded(b, b', i, j),
                              b.invoices[i].status)
  {
    hide First, Count, LineSum, FeeOf, AfterCallback;
    var b' := Next(b, day, step);
    match step
    case MakePayment(invoice, means, key) =>
      if |b'.payments| > |b.payments| && means == Cash && invoice == i {
        assert BecomesPaid(b, b', i, |b.payments|);
      }
    case Hear(c) => InvoiceFollowsCallback(b, c, i);
    case _ =>
  }

  // ---------------------------------------------------------------------------------------
  // Refusals
  // ---------------------------------------------------------------------------------------

  /** Every refusal of an invoice is true: what it says is so. */
  lemma RefusedInvoicesAreTold(b: Books, req: InvoiceRequest)
    requires DecideInvoice(b, req).Failure?
    ensures var known := req.transaction < |b.transactions|;
            match DecideInvoice(b, req).error
            case TransactionNotFound => !known
            case InvoiceExists => exists i :: 0 <= i < |b.invoices| && b.invoices[i].transaction == req.transaction
            case NotParked => known && !b.transactions[req.transaction].parked
            case PriceMissing => known && b.transactions[req.transaction].snapshot.None?
            case InviteUnavailable => req.code.Some? && req.code.value != "" &&
                ((forall i :: 0 <= i < |b.invites| ==> b.invites[i].code != req.code.value)
                 || exists i :: 0 <= i < |b.invites| && b.invites[i].code == req.code.value && b.invites[i].redeemed)
            case InviteExpired =>
              exists i ::
                && 0 <= i < |b.invites| && Some(b.invites[i].code) == req.code
                && !(b.invites[i].validFrom <= req.checkOut <= b.invites[i].validUntil)
            case InvalidCheckout => known && req.checkOut <= b.transactions[req.transaction].checkIn
            case _ => false
  {
    hide First;
    if req.code.Some? {
      assert forall i :: 0 <= i < |b.invites| ==>
               (WithCode(req.code.value)(b.invites[i]) <==> b.invites[i].code == req.code.value);
    }
    assert forall i :: 0 <= i < |b.invoices| ==>
             (ForTransaction(req.transaction)(b.invoices[i]) <==> b.invoices[i].transaction == req.transaction);
  }

  /** Every refusal of a payment is true. */
  lemma RefusedPaymentsAreTold(b: Books, invoice: nat, means: PaymentMethod, key: string)
    requires DecidePayment(b, invoice, means, key).Failure?
    ensures match DecidePayment(b, invoice, means, key).error
            case InvoiceNotFound => invoice >= |b.invoices|
            case IdempotencyConflict =>
              exists i ::
                && 0 <= i < |b.payments| && b.payments[i].invoice == invoice
                && b.payments[i].key == key && b.payments[i].means != means
            case InvoiceAlreadyPaid => invoice < |b.invoices| && b.invoices[invoice].status == InvoicePaid
            case PaymentPending =>
              exists i ::
                && 0 <= i < |b.payments| && b.payments[i].invoice == invoice
                && b.payments[i].status in {Pending, Processing}
            case _ => false
  {
    hide First;
  }

  /** Every refusal of a callback is true, and so is every reply: the row it gives has the reference. */
  lemma CallbacksAreTold(b: Books, c: Callback)
    ensures match DecideCallback(b, c)
            case Success(d) => d.row < |b.payments| && b.payments[d.row].ref == Some(c.ref)
            case Failure(PaymentNotFound) => forall i :: 0 <= i < |b.payments| ==> b.payments[i].ref != Some(c.ref)
            case Failure(InvalidPaymentMethod) =>
              exists i ::
                && 0 <= i < |b.payments| && b.payments[i].ref == Some(c.ref)
                && b.payments[i].means != VietQr
            case Failure(RefundAmountMismatch) =>
              exists i ::
                && 0 <= i < |b.payments| && b.payments[i].ref == Some(c.ref)
                && b.payments[i].status == Paid && c.status == ProviderRefunded && c.amount != b.payments[i].amount
            case Failure(PaymentFinal) =>
              exists i ::
                && 0 <= i < |b.payments| && b.payments[i].ref == Some(c.ref)
                && b.payments[i].status in {Paid, Refunded}
            case Failure(_) => false
  {
    hide First;
    assert forall i :: 0 <= i < |b.payments| ==> (WithRef(c.ref)(b.payments[i]) <==> b.payments[i].ref == Some(c.ref));
  }

  // ---------------------------------------------------------------------------------------
  // The report
  // ---------------------------------------------------------------------------------------

  predicate WrongAmount(p: Payment, i: Invoice) { p.providerAmount.Some? && p.providerAmount.value != i.total }

  predicate WronglyUnpaid(p: Payment) { p.providerStatus == Some(ProviderPaid) && p.status != Paid }

  predicate InvoiceNotPaid(p: Payment, i: Invoice) { p.status == Paid && i.status != InvoicePaid }

  /** The entry is for a transfer and its invoice, and gives exactly the reasons that apply. */
  ghost predicate RightEntry(b: Books, m: Mismatch) {
    && m.payment < |b.payments|
    && var p := b.payments[m.payment];
       && p.means == VietQr && m.invoice == p.invoice < |b.invoices|
       && var i := b.invoices[p.invoice];
          && (AmountMismatch in m.reasons <==> WrongAmount(p, i))
          && (StatusMismatch in m.reasons <==> WronglyUnpaid(p))
          && (InvoiceStatusMismatch in m.reasons <==> InvoiceNotPaid(p, i))
  }

  ghost predicate InvoicesExist(b: Books) {
    forall i :: 0 <= i < |b.payments| ==> b.payments[i].invoice < |b.invoices|
  }

  lemma EntryIsRight(b: Books, row: nat)
    requires row < |b.payments| && b.payments[row].invoice < |b.invoices|
    ensures |ReportedFor(b, row)| <= 1
    ensures forall m :: m in ReportedFor(b, row) ==> RightEntry(b, m) && m.payment == row
    ensures ReportedFor(b, row) != [] <==>
              var p := b.payments[row];
              && p.means == VietQr
              && (WrongAmount(p, b.invoices[p.invoice]) || WronglyUnpaid(p) || InvoiceNotPaid(p, b.invoices[p.invoice]))
  {
  }

  lemma {:induction false} ReportPrefix(b: Books, n: nat)
    requires n <= |b.payments| && InvoicesExist(b)
    ensures forall m :: m in Report(b, n) ==> RightEntry(b, m) && m.payment < n
    ensures forall i, j :: 0 <= i < j < |Report(b, n)| ==> Report(b, n)[i].payment < Report(b, n)[j].payment
  {
    hide ReportedFor, RightEntry;
    if n > 0 {
      ReportPrefix(b, n - 1);
      EntryIsRight(b, n - 1);
      var earlier, last := Report(b, n - 1), ReportedFor(b, n - 1);
      assert forall i :: 0 <= i < |earlier| ==> earlier[i] in earlier;
      assert forall i :: 0 <= i < |last| ==> last[i] in last;
    }
  }

  lemma {:induction false} EntryIsIncluded(b: Books, n: nat, row: nat)
    requires row < n <= |b.payments| && ReportedFor(b, row) != []
    ensures ReportedFor(b, row)[0] in Report(b, n)
  {
    hide ReportedFor;
    if row < n - 1 {
      EntryIsIncluded(b, n - 1, row);
    }
  }

  /** On every run the report is sound and complete: one entry for each transfer for which something does not
      match, none for any other payment, in row order, each with exactly the reasons that apply. */
  lemma ReportIsComplete(day: DayOf, steps: seq<Step>, row: nat)
    requires row < |Run(EMPTY_BOOKS, day, steps).payments|
    ensures var b := Run(EMPTY_BOOKS, day, steps);
            var p, report := b.payments[row], Report(b, |b.payments|);
            && p.invoice < |b.invoices|
            && ((exists m :: m in report && m.payment == row) <==>
                  && p.means == VietQr
                  && (|| WrongAmount(p, b.invoices[p.invoice]) || WronglyUnpaid(p)
                      || InvoiceNotPaid(p, b.invoices[p.invoice])))
            && (forall m :: m in report ==> RightEntry(b, m))
            && forall i, j :: 0 <= i < j < |report| ==> report[i].payment < report[j].payment
  {
    hide Run, Report, ReportedFor, RightEntry;
    EmptyBooksAreSound();
    RunIsSound(EMPTY_BOOKS, day, steps);
    var b := Run(EMPTY_BOOKS, day, steps);
    forall i | 0 <= i < |b.payments| ensures b.payments[i].invoice < |b.invoices| {
      assert PaymentSound(b, i);
    }
    ReportPrefix(b, |b.payments|);
    EntryIsRight(b, row);
    if ReportedFor(b, row) != [] {
      EntryIsIncluded(b, |b.payments|, row);
    }
    forall m | m in Report(b, |b.payments|) && m.payment == row ensures ReportedFor(b, row) != [] {
      EntryIsItsOwn(b, |b.payments|, m);
    }
  }

  lemma {:induction false} EntryIsItsOwn(b: Books, n: nat, m: Mismatch)
    requires 0 < n <= |b.payments| && m in Report(b, n)
    ensures m.payment < n && m in ReportedFor(b, m.payment)
  {
    hide ReportedFor;
    ReportedForItself(b, n - 1);
    if m !in ReportedFor(b, n - 1) {
      EntryIsItsOwn(b, n - 1, m);
    }
  }

  lemma ReportedForItself(b: Books, row: nat)
    requires row < |b.payments|
    ensures forall m :: m in ReportedFor(b, row) ==> m.payment == row
  {
  }
}
