/** What every run of the billing desk keeps (backend/app/modules/pricing/billing.py). */
module BillingRuns {
  import opened Common
  import opened Fees
  import opened Billing

  // ---------------------------------------------------------------------------------------
  // The unconditional invariant
  // ---------------------------------------------------------------------------------------

  ghost predicate HasPaid(b: Books, invoice: nat) {
    exists i :: 0 <= i < |b.payments| && b.payments[i].invoice == invoice && b.payments[i].status == Paid
  }

  /** A payment is for its invoice's total, is marked confirmed once paid, and differs from what
      the provider last reported only when it failed. */
  ghost predicate PaymentSound(b: Books, i: nat)
    requires i < |b.payments|
  {
    var p := b.payments[i];
    && p.invoice < |b.invoices|
    && p.amount == b.invoices[p.invoice].total
    && p.ref == (if p.means == VietQr then Some(i) else None)
    && (p.status == Paid ==> p.confirmed)
    && (p.providerAmount.Some? && p.providerAmount.value != p.amount ==> p.status == Failed)
    && (p.providerStatus == Some(ProviderPaid) && p.status != Paid ==>
          p.providerAmount.Some? && p.providerAmount.value != p.amount)
  }

  ghost predicate InvoiceSound(b: Books, i: nat)
    requires i < |b.invoices|
  {
    var v := b.invoices[i];
    && v.transaction < |b.transactions|
    && (v.status == InvoicePaid ==> HasPaid(b, i))
    && (v.status == Open ==> !HasPaid(b, i))
    && v.total == LineSum(v.lines) >= 0 && LinesValid(v.lines)
    && (v.invite.Some? ==> v.invite.value < |b.invites|)
  }

  function Redeems(row: nat): Invoice -> bool { (i: Invoice) => i.invite == Some(row) }

  ghost predicate Sound(b: Books) {
    && SnapshotsValid(b)
    && (forall i :: 0 <= i < |b.payments| ==> PaymentSound(b, i))
    && (forall i :: 0 <= i < |b.invoices| ==> InvoiceSound(b, i))
    && (forall i, j :: 0 <= i < j < |b.payments| && b.payments[i].invoice == b.payments[j].invoice ==>
          b.payments[i].key != b.payments[j].key)
    && (forall i, j :: 0 <= i < j < |b.invoices| ==> b.invoices[i].transaction != b.invoices[j].transaction)
    && (forall r :: 0 <= r < |b.invites| ==>
          Count(b.invoices, Redeems(r)) == if b.invites[r].redeemed then 1 else 0)
  }

  lemma {:induction false} NoInvoiceRedeems(invoices: seq<Invoice>, r: nat)
    requires forall i :: 0 <= i < |invoices| && invoices[i].invite.Some? ==> invoices[i].invite.value < r
    ensures Count(invoices, Redeems(r)) == 0
  {
    if invoices != [] {
      NoInvoiceRedeems(invoices[..|invoices| - 1], r);
    }
  }

  /** An invite that is free is used by no invoice, and one that an invoice takes is used once. */
  lemma MakeInvoiceKeepsInvites(b: Books, day: DayOf, req: InvoiceRequest)
    requires Sound(b)
    requires DecideInvoice(b, req).Success? && DecideInvoice(b, req).value.Fresh?
    ensures var b' := AfterInvoice(b, day, req);
            && |b'.invites| == |b.invites|
            && forall r :: 0 <= r < |b'.invites| ==>
                 Count(b'.invoices, Redeems(r)) == if b'.invites[r].redeemed then 1 else 0
  {
    var b' := AfterInvoice(b, day, req);
    var v := b'.invoices[|b.invoices|];
    forall r | 0 <= r < |b'.invites|
      ensures Count(b'.invoices, Redeems(r)) == if b'.invites[r].redeemed then 1 else 0
    {
      CountAppend(b.invoices, Redeems(r), v);
    }
  }

  /** No payment refers to a row that is not there yet. */
  lemma NothingPaidYet(b: Books)
    requires Sound(b)
    ensures !HasPaid(b, |b.invoices|)
  {
    forall k | 0 <= k < |b.payments| ensures b.payments[k].invoice != |b.invoices| {
      assert PaymentSound(b, k);
    }
  }

  /** Adding an open invoice whose lines add up, for a transaction that has none. */
  lemma AddedInvoiceIsSound(b: Books, b': Books, v: Invoice)
    requires Sound(b)
    requires b'.invoices == b.invoices + [v] && b'.payments == b.payments
    requires b'.transactions == b.transactions && |b'.invites| == |b.invites|
    requires v.transaction < |b.transactions| && v.status == Open
    requires v.total == LineSum(v.lines) >= 0 && LinesValid(v.lines)
    requires v.invite.Some? ==> v.invite.value < |b.invites|
    requires forall i :: 0 <= i < |b.invoices| ==> b.invoices[i].transaction != v.transaction
    requires forall r :: 0 <= r < |b'.invites| ==>
               Count(b'.invoices, Redeems(r)) == if b'.invites[r].redeemed then 1 else 0
    ensures Sound(b')
  {
    hide Count, LineSum;
    NothingPaidYet(b);
    forall i | 0 <= i < |b.invoices| ensures InvoiceSound(b', i) {
      assert InvoiceSound(b, i) && (HasPaid(b, i) <==> HasPaid(b', i));
    }
    assert InvoiceSound(b', |b.invoices|) by {
      assert HasPaid(b, |b.invoices|) <==> HasPaid(b', |b.invoices|);
    }
    forall i | 0 <= i < |b'.payments| ensures PaymentSound(b', i) {
      assert PaymentSound(b, i);
    }
  }

  lemma MakeInvoiceIsSound(b: Books, day: DayOf, req: InvoiceRequest)
    requires Sound(b)
    ensures Sound(AfterInvoice(b, day, req))
  {
    hide Count, First, LineSum, FeeOf;
    var d := DecideInvoice(b, req);
    if d.Success? && d.value.Fresh? {
      assert b.transactions[req.transaction] in b.transactions;
      MakeInvoiceKeepsInvites(b, day, req);
      forall i | 0 <= i < |b.invoices| ensures b.invoices[i].transaction != req.transaction {
        assert !ForTransaction(req.transaction)(b.invoices[i]);
      }
      AddedInvoiceIsSound(b, AfterInvoice(b, day, req), NewInvoice(b, day, req, d.value.invite));
    }
  }

  lemma MakePaymentIsSound(b: Books, invoice: nat, means: PaymentMethod, key: string)
    requires Sound(b)
    ensures Sound(AfterPayment(b, invoice, means, key))
  {
    hide Count, First, LineSum;
    var d := DecidePayment(b, invoice, means, key);
    var b' := AfterPayment(b, invoice, means, key);
    if d.Success? && d.value == |b.payments| {
      forall i | 0 <= i < |b'.payments| ensures PaymentSound(b', i) {
        assert i < |b.payments| ==> PaymentSound(b, i);
      }
      forall i | 0 <= i < |b.payments| && b.payments[i].invoice == invoice ensures b.payments[i].key != key {
        assert !WithKey(invoice, key)(b.payments[i]);
      }
      forall i | 0 <= i < |b'.invoices| ensures InvoiceSound(b', i) {
        assert InvoiceSound(b, i);
        PaidAfterAppend(b, b', i);
      }
      SameInvites(b, b');
    }
  }

  lemma PaidAfterAppend(b: Books, b': Books, invoice: nat)
    requires |b'.payments| == |b.payments| + 1 && b'.payments[..|b.payments|] == b.payments
    ensures var p := b'.payments[|b.payments|];
            HasPaid(b', invoice) <==> HasPaid(b, invoice) || (p.invoice == invoice && p.status == Paid)
  {
    var n := |b.payments|;
    assert forall i :: 0 <= i < n ==> b'.payments[i] == b.payments[i];
    if HasPaid(b, invoice) {
      var k :| 0 <= k < n && b.payments[k].invoice == invoice && b.payments[k].status == Paid;
      assert b'.payments[k] == b.payments[k];
    }
  }

  /** Changing an invoice's status leaves the redemption counts alone. */
  lemma SameInvites(b: Books, b': Books)
    requires b'.invites == b.invites && |b'.invoices| == |b.invoices|
    requires forall i :: 0 <= i < |b.invoices| ==> b'.invoices[i].invite == b.invoices[i].invite
    ensures forall r :: 0 <= r < |b.invites| ==>
              Count(b'.invoices, Redeems(r)) == Count(b.invoices, Redeems(r))
  {
    forall r | 0 <= r < |b.invites| ensures Count(b'.invoices, Redeems(r)) == Count(b.invoices, Redeems(r)) {
      SameRedeems(b.invoices, b'.invoices, r);
    }
  }

  lemma {:induction false} SameRedeems(xs: seq<Invoice>, ys: seq<Invoice>, r: nat)
    requires |xs| == |ys| && forall i :: 0 <= i < |xs| ==> xs[i].invite == ys[i].invite
    ensures Count(xs, Redeems(r)) == Count(ys, Redeems(r))
  {
    if xs != [] {
      SameRedeems(xs[..|xs| - 1], ys[..|ys| - 1], r);
    }
  }

  lemma HearIsSound(b: Books, c: Callback)
    requires Sound(b)
    ensures Sound(AfterCallback(b, c))
  {
    hide Count, First, LineSum;
    var d := DecideCallback(b, c);
    var b' := AfterCallback(b, c);
    if d.Success? && !d.value.Replay? {
      var row := d.value.row;
      assert PaymentSound(b, row);
      forall i | 0 <= i < |b'.payments| ensures PaymentSound(b', i) {
        assert PaymentSound(b, i);
      }
      forall i | 0 <= i < |b'.invoices| ensures InvoiceSound(b', i) {
        assert InvoiceSound(b, i);
        PaidAfterUpdate(b, b', row, i);
      }
      SameInvites(b, b');
    }
  }

  lemma PaidAfterUpdate(b: Books, b': Books, row: nat, invoice: nat)
    requires row < |b.payments| == |b'.payments| && b'.payments == b.payments[row := b'.payments[row]]
    requires b'.payments[row].invoice == b.payments[row].invoice
    ensures b.payments[row].invoice != invoice ==> (HasPaid(b', invoice) <==> HasPaid(b, invoice))
    ensures b'.payments[row].invoice == invoice && b'.payments[row].status == Paid ==> HasPaid(b', invoice)
    ensures b.payments[row].status != Paid && HasPaid(b, invoice) ==> HasPaid(b', invoice)
    ensures b'.payments[row].status != Paid && HasPaid(b', invoice) ==> HasPaid(b, invoice)
  {
    if HasPaid(b, invoice) {
      var k :| 0 <= k < |b.payments| && b.payments[k].invoice == invoice && b.payments[k].status == Paid;
      assert k != row ==> b'.payments[k] == b.payments[k];
    }
    if HasPaid(b', invoice) {
      var k :| 0 <= k < |b.payments| && b'.payments[k].invoice == invoice && b'.payments[k].status == Paid;
      assert k != row ==> b'.payments[k] == b.payments[k];
    }
  }

  lemma NextIsSound(b: Books, day: DayOf, step: Step)
    requires Sound(b)
    ensures Sound(Next(b, day, step))
  {
    hide Count, First, LineSum, FeeOf, AfterInvoice, AfterPayment, AfterCallback;
    SnapshotsStayValid(b, day, step);
    match step
    case MakeInvoice(req) => MakeInvoiceIsSound(b, day, req);
    case MakePayment(invoice, means, key) => MakePaymentIsSound(b, invoice, means, key);
    case Hear(c) => HearIsSound(b, c);
    case IssueInvite(invite) => IssueInviteIsSound(b, day, invite);
    case _ =>
      var b' := Next(b, day, step);
      forall i | 0 <= i < |b'.invoices| ensures InvoiceSound(b', i) {
        assert InvoiceSound(b, i);
        assert HasPaid(b', i) <==> HasPaid(b, i);
      }
      forall i | 0 <= i < |b'.payments| ensures PaymentSound(b', i) {
        assert PaymentSound(b, i);
      }
  }

  lemma IssueInviteIsSound(b: Books, day: DayOf, invite: Invite)
    requires Sound(b)
    ensures Sound(Next(b, day, IssueInvite(invite)))
  {
    hide Count, First, LineSum, FeeOf;
    var b' := Next(b, day, IssueInvite(invite));
    forall i | 0 <= i < |b'.invoices| ensures InvoiceSound(b', i) {
      assert InvoiceSound(b, i);
      assert HasPaid(b', i) <==> HasPaid(b, i);
    }
    forall i | 0 <= i < |b'.payments| ensures PaymentSound(b', i) {
      assert PaymentSound(b, i);
    }
    forall i | 0 <= i < |b.invoices| && b.invoices[i].invite.Some? ensures b.invoices[i].invite.value < |b.invites| {
      assert InvoiceSound(b, i);
    }
    NoInvoiceRedeems(b.invoices, |b.invites|);
  }

  /** On every run: payments are for their invoice's total, paid invoices have a paid payment and
      open ones none, an invite is redeemed exactly when one invoice uses it, and totals add up. */
  lemma {:induction false} RunIsSound(b: Books, day: DayOf, steps: seq<Step>)
    requires Sound(b)
    ensures Sound(Run(b, day, steps))
  {
    if steps != [] {
      RunIsSound(b, day, steps[..|steps| - 1]);
      NextIsSound(Run(b, day, steps[..|steps| - 1]), day, steps[|steps| - 1]);
    }
  }

  lemma EmptyBooksAreSound()
    ensures Sound(EMPTY_BOOKS)
  {
  }

  /** Payment rows stay, and a row is confirmed after a step exactly when it was or is now paid. */
  lemma ConfirmationStep(b: Books, day: DayOf, step: Step, i: nat)
    requires Sound(b)
    ensures |b.payments| <= |Next(b, day, step).payments|
    ensures i < |Next(b, day, step).payments| ==>
              (Next(b, day, step).payments[i].confirmed <==>
                 (i < |b.payments| && b.payments[i].confirmed) || Next(b, day, step).payments[i].status == Paid)
  {
    hide Count, First, LineSum, FeeOf;
    NextIsSound(b, day, step);
    var b' := Next(b, day, step);
    assert i < |b'.payments| ==> PaymentSound(b', i);
  }

  /** Some state of the run, the first and the last included, shows the payment paid. */
  ghost predicate EverPaid(b: Books, day: DayOf, steps: seq<Step>, i: nat)
    requires SnapshotsValid(b)
  {
    PaidAfter(b, day, steps, i) || (steps != [] && EverPaid(b, day, steps[..|steps| - 1], i))
  }

  ghost predicate PaidAfter(b: Books, day: DayOf, steps: seq<Step>, i: nat)
    requires SnapshotsValid(b)
  {
    i < |Run(b, day, steps).payments| && Run(b, day, steps).payments[i].status == Paid
  }

  /** A confirmation time is recorded exactly for the payments that were ever paid. */
  lemma {:induction false} ConfirmedIffEverPaid(day: DayOf, steps: seq<Step>, i: nat)
    ensures i < |Run(EMPTY_BOOKS, day, steps).payments| ==>
              (Run(EMPTY_BOOKS, day, steps).payments[i].confirmed <==> EverPaid(EMPTY_BOOKS, day, steps, i))
    ensures EverPaid(EMPTY_BOOKS, day, steps, i) ==> i < |Run(EMPTY_BOOKS, day, steps).payments|
  {
    EmptyBooksAreSound();
    if steps != [] {
      var before := steps[..|steps| - 1];
      RunIsSound(EMPTY_BOOKS, day, before);
      ConfirmedIffEverPaid(day, before, i);
      ConfirmationStep(Run(EMPTY_BOOKS, day, before), day, steps[|steps| - 1], i);
    }
  }

  // ---------------------------------------------------------------------------------------
  // One live payment per invoice
  // ---------------------------------------------------------------------------------------

  function LiveFor(invoice: nat): Payment -> bool {
    (p: Payment) => p.invoice == invoice && p.status in {Pending, Processing, Paid}
  }

  function PaidFor(invoice: nat): Payment -> bool {
    (p: Payment) => p.invoice == invoice && p.status == Paid
  }

  /** An invoice has at most one payment that is pending, processing or paid, and the invoice is
      paid exactly when one of its payments is. */
  ghost predicate SoleFor(b: Books, invoice: nat)
    requires invoice < |b.invoices|
  {
    && Count(b.payments, LiveFor(invoice)) <= 1
    && (b.invoices[invoice].status == InvoicePaid <==> Count(b.payments, PaidFor(invoice)) == 1)
  }

  ghost predicate Sole(b: Books) { forall i :: 0 <= i < |b.invoices| ==> SoleFor(b, i) }

  /** A new callback that brings a failed payment back while its invoice has another live one. */
  predicate Revives(b: Books, step: Step) {
    && step.Hear?
    && var d := DecideCallback(b, step.callback);
       && d.Success? && d.value.Settle?
       && var p := b.payments[d.value.row];
          && p.status == Failed && p.invoice < |b.invoices|
          && step.callback.amount == p.amount == b.invoices[p.invoice].total
          && step.callback.status in {ProviderPaid, ProviderProcessing}
          && Count(b.payments, LiveFor(p.invoice)) >= 1
  }

  lemma {:induction false} LiveIsPaidOrUnfinished(payments: seq<Payment>, invoice: nat)
    ensures Count(payments, LiveFor(invoice))
         == Count(payments, PaidFor(invoice)) + Count(payments, Unfinished(invoice))
  {
    CountSplit(payments, LiveFor(invoice), PaidFor(invoice), Unfinished(invoice));
  }

  lemma MakePaymentKeepsSole(b: Books, invoice: nat, means: PaymentMethod, key: string)
    requires Sound(b) && Sole(b)
    ensures Sole(AfterPayment(b, invoice, means, key))
  {
    hide Count, First, LineSum;
    var d := DecidePayment(b, invoice, means, key);
    var b' := AfterPayment(b, invoice, means, key);
    if d.Success? && d.value == |b.payments| {
      var p := b'.payments[|b.payments|];
      forall i | 0 <= i < |b'.invoices| ensures SoleFor(b', i) {
        assert SoleFor(b, i);
        CountAppend(b.payments, LiveFor(i), p);
        CountAppend(b.payments, PaidFor(i), p);
        LiveIsPaidOrUnfinished(b.payments, i);
        if i == invoice {
          forall k | 0 <= k < |b.payments| ensures !LiveFor(i)(b.payments[k]) {
            assert !Unfinished(i)(b.payments[k]);
            if PaidFor(i)(b.payments[k]) {
              CountPositive(b.payments, PaidFor(i), k);
            }
          }
          NoneCounted(b.payments, LiveFor(i));
        }
      }
    }
  }

  lemma UpdateCounts(payments: seq<Payment>, row: nat, p: Payment, invoice: nat)
    requires row < |payments|
    ensures Count(payments[row := p], LiveFor(invoice)) + (if LiveFor(invoice)(payments[row]) then 1 else 0)
         == Count(payments, LiveFor(invoice)) + (if LiveFor(invoice)(p) then 1 else 0)
    ensures Count(payments[row := p], PaidFor(invoice)) + (if PaidFor(invoice)(payments[row]) then 1 else 0)
         == Count(payments, PaidFor(invoice)) + (if PaidFor(invoice)(p) then 1 else 0)
    ensures Count(payments, LiveFor(invoice))
         == Count(payments, PaidFor(invoice)) + Count(payments, Unfinished(invoice))
    ensures Unfinished(invoice)(payments[row]) ==> Count(payments, Unfinished(invoice)) >= 1
    ensures PaidFor(invoice)(payments[row]) ==> Count(payments, PaidFor(invoice)) >= 1
  {
    CountUpdate(payments, LiveFor(invoice), row, p);
    CountUpdate(payments, PaidFor(invoice), row, p);
    LiveIsPaidOrUnfinished(payments, invoice);
    if Unfinished(invoice)(payments[row]) {
      CountPositive(payments, Unfinished(invoice), row);
    }
    if PaidFor(invoice)(payments[row]) {
      CountPositive(payments, PaidFor(invoice), row);
    }
  }

  lemma HearAndSole(b: Books, c: Callback)
    requires Sound(b) && Sole(b)
    ensures Sole(AfterCallback(b, c)) <==> !Revives(b, Hear(c))
  {
    hide Count, First, LineSum;
    var d := DecideCallback(b, c);
    var b' := AfterCallback(b, c);
    if d.Success? && !d.value.Replay? {
      var row := d.value.row;
      var p, p' := b.payments[row], b'.payments[row];
      assert PaymentSound(b, row) && SoleFor(b, p.invoice);
      UpdateCounts(b.payments, row, p', p.invoice);
      assert SoleFor(b', p.invoice) <==> !Revives(b, Hear(c));
      forall i | 0 <= i < |b.invoices| && i != p.invoice ensures SoleFor(b', i) {
        assert SoleFor(b, i);
        UpdateCounts(b.payments, row, p', i);
      }
    }
  }

  lemma MakeInvoiceKeepsSole(b: Books, day: DayOf, req: InvoiceRequest)
    requires Sound(b) && Sole(b)
    ensures Sole(AfterInvoice(b, day, req))
  {
    var b' := AfterInvoice(b, day, req);
    forall i | 0 <= i < |b'.invoices| ensures SoleFor(b', i) {
      if i < |b.invoices| {
        assert SoleFor(b, i);
      } else {
        forall k | 0 <= k < |b.payments| ensures !LiveFor(i)(b.payments[k]) {
          assert PaymentSound(b, k);
        }
        NoneCounted(b.payments, LiveFor(i));
        LiveIsPaidOrUnfinished(b.payments, i);
      }
    }
  }

  /** From books with one live payment per invoice, a step breaks that exactly when it revives. */
  lemma StepAndSole(b: Books, day: DayOf, step: Step)
    requires Sound(b) && Sole(b)
    ensures Sole(Next(b, day, step)) <==> !Revives(b, step)
  {
    hide Count, First, LineSum, FeeOf;
    match step
    case MakeInvoice(req) => MakeInvoiceKeepsSole(b, day, req);
    case MakePayment(invoice, means, key) => MakePaymentKeepsSole(b, invoice, means, key);
    case Hear(c) => HearAndSole(b, c);
    case _ =>
      var b' := Next(b, day, step);
      forall i | 0 <= i < |b'.invoices| ensures SoleFor(b', i) {
        assert SoleFor(b, i);
      }
  }

  /** Every state of the run, the first and the last included, has one live payment per invoice. */
  ghost predicate AlwaysSole(day: DayOf, steps: seq<Step>) {
    Sole(Run(EMPTY_BOOKS, day, steps)) && (steps != [] ==> AlwaysSole(day, steps[..|steps| - 1]))
  }

  /** No step of the run revives a failed payment in the state it is taken in. */
  ghost predicate NeverRevives(day: DayOf, steps: seq<Step>) {
    steps != [] ==>
      && NeverRevives(day, steps[..|steps| - 1])
      && !Revives(Run(EMPTY_BOOKS, day, steps[..|steps| - 1]), steps[|steps| - 1])
  }

  /** A run keeps one live payment per invoice throughout exactly when no callback in it revives a
      failed payment beside another live one. */
  lemma {:induction false} SoleExactly(day: DayOf, steps: seq<Step>)
    ensures AlwaysSole(day, steps) <==> NeverRevives(day, steps)
  {
    EmptyBooksAreSound();
    if steps != [] {
      var before := steps[..|steps| - 1];
      SoleExactly(day, before);
      RunIsSound(EMPTY_BOOKS, day, before);
      if AlwaysSole(day, before) {
        StepAndSole(Run(EMPTY_BOOKS, day, before), day, steps[|steps| - 1]);
      }
    }
  }

  lemma RunOfFour(b: Books, day: DayOf, s1: Step, s2: Step, s3: Step, s4: Step)
    requires SnapshotsValid(b)
    ensures SnapshotsValid(Next(b, day, s1)) && SnapshotsValid(Next(Next(b, day, s1), day, s2))
    ensures SnapshotsValid(Next(Next(Next(b, day, s1), day, s2), day, s3))
    ensures Run(b, day, [s1, s2, s3, s4]) == Next(Next(Next(Next(b, day, s1), day, s2), day, s3), day, s4)
  {
    var all := [s1, s2, s3, s4];
    SnapshotsStayValid(b, day, s1);
    SnapshotsStayValid(Next(b, day, s1), day, s2);
    SnapshotsStayValid(Next(Next(b, day, s1), day, s2), day, s3);
    assert all[..3] == [s1, s2, s3] && [s1, s2, s3][..2] == [s1, s2] && [s1, s2][..1] == [s1] && [s1][..0] == [];
    assert Run(b, day, [s1]) == Next(b, day, s1);
    assert Run(b, day, [s1, s2]) == Next(Next(b, day, s1), day, s2);
    assert Run(b, day, [s1, s2, s3]) == Next(Next(Next(b, day, s1), day, s2), day, s3);
  }

  /** A transfer of a given total that was paid with another amount. */
  function FailedTransfer(invoice: nat, total: nat): Payment {
    Payment(invoice, Some(0), "qr", VietQr, Failed, total, false, Some(total + 1), Some(ProviderPaid))
  }

  lemma TransferFails(b: Books, invoice: nat, total: nat)
    requires invoice < |b.invoices| && b.payments == []
    requires b.invoices[invoice].status == Open && b.invoices[invoice].total == total
    ensures AfterCallback(AfterPayment(b, invoice, VietQr, "qr"), Callback(0, total + 1, ProviderPaid))
         == b.(payments := [FailedTransfer(invoice, total)])
  {
    var b1 := AfterPayment(b, invoice, VietQr, "qr");
    assert b1.payments == [Payment(invoice, Some(0), "qr", VietQr, Pending, total, false, None, None)];
    assert First(b1.payments, WithRef(0)) == Some(0);
  }

  lemma TransferRevives(b: Books, invoice: nat, total: nat)
    requires invoice < |b.invoices| && b.payments == [FailedTransfer(invoice, total)]
    requires b.invoices[invoice].status == Open && b.invoices[invoice].total == total
    ensures var b' := AfterCallback(AfterPayment(b, invoice, Cash, "cash"), Callback(0, total, ProviderPaid));
            Count(b'.payments, PaidFor(invoice)) == 2
  {
    var b1 := AfterPayment(b, invoice, Cash, "cash");
    var cash := Payment(invoice, None, "cash", Cash, Paid, total, true, None, None);
    assert b1.payments == [FailedTransfer(invoice, total), cash];
    var c := Callback(0, total, ProviderPaid);
    assert WithRef(0)(b1.payments[0]) && First(b1.payments, WithRef(0)) == Some(0);
    var p := Settled(FailedTransfer(invoice, total), total, c);
    assert AfterCallback(b1, c).payments == [p, cash];
    CountAppend([], PaidFor(invoice), p);
    CountAppend([p], PaidFor(invoice), cash);
    assert [] + [p] == [p] && [p] + [cash] == [p, cash];
  }

  lemma {:induction false} RunConcat(b: Books, day: DayOf, xs: seq<Step>, ys: seq<Step>)
    requires SnapshotsValid(b)
    ensures Run(b, day, xs + ys) == Run(Run(b, day, xs), day, ys)
  {
    if ys == [] {
      assert xs + ys == xs;
    } else {
      RunConcat(b, day, xs, ys[..|ys| - 1]);
      assert (xs + ys)[..|xs + ys| - 1] == xs + ys[..|ys| - 1];
    }
  }

  /** A transfer that fails on a wrong amount, a cash payment, and then the right amount. */
  function LateTransfer(invoice: nat, total: nat): seq<Step> {
    [MakePayment(invoice, VietQr, "qr"), Hear(Callback(0, total + 1, ProviderPaid)),
     MakePayment(invoice, Cash, "cash"), Hear(Callback(0, total, ProviderPaid))]
  }

  lemma LateTransferPaysTwice(b: Books, day: DayOf, invoice: nat, total: nat)
    requires SnapshotsValid(b) && invoice < |b.invoices| && b.payments == []
    requires b.invoices[invoice].status == Open && b.invoices[invoice].total == total
    ensures Count(Run(b, day, LateTransfer(invoice, total)).payments, PaidFor(invoice)) == 2
  {
    hide Count, First, LineSum, Run, AfterPayment, AfterCallback;
    RunOfFour(b, day, MakePayment(invoice, VietQr, "qr"), Hear(Callback(0, total + 1, ProviderPaid)),
              MakePayment(invoice, Cash, "cash"), Hear(Callback(0, total, ProviderPaid)));
    TransferFails(b, invoice, total);
    TransferRevives(b.(payments := [FailedTransfer(invoice, total)]), invoice, total);
  }

  /** The books after a priced arrival and its invoice. */
  lemma FirstInvoice(day: DayOf, t: Transaction, req: InvoiceRequest) returns (b: Books)
    requires t.parked && t.snapshot.Some? && Valid(t.snapshot.value) && t.checkIn < req.checkOut
    requires req.transaction == 0 && req.code == None
    ensures b == Run(EMPTY_BOOKS, day, [Arrive(t), MakeInvoice(req)])
    ensures SnapshotsValid(b) && |b.invoices| == 1 && b.payments == [] && b.invoices[0].status == Open
    ensures b.invoices[0].total
         == FeeOf(t.snapshot.value, day, t.checkIn, req.checkOut, req.lost, req.overtime, req.extraFree).total
  {
    hide FeeOf, Count;
    var steps := [Arrive(t), MakeInvoice(req)];
    assert steps[..1] == [Arrive(t)] && steps[..1][..0] == [];
    var b1 := EMPTY_BOOKS.(transactions := [t]);
    assert Run(EMPTY_BOOKS, day, steps[..1]) == b1;
    b := Next(b1, day, MakeInvoice(req));
    SnapshotsStayValid(b1, day, MakeInvoice(req));
  }

  /** The exception is reachable for every priced visit and invoice: a transfer that failed on a wrong
      amount, a cash payment, and then the right amount for the transfer leave it paid twice. */
  lemma FailedPaymentsComeBack(day: DayOf, t: Transaction, req: InvoiceRequest)
    requires t.parked && t.snapshot.Some? && Valid(t.snapshot.value) && t.checkIn < req.checkOut
    requires req.transaction == 0 && req.code == None
    ensures var fee := FeeOf(t.snapshot.value, day, t.checkIn, req.checkOut, req.lost, req.overtime, req.extraFree);
            var steps := [Arrive(t), MakeInvoice(req)] + LateTransfer(0, fee.total);
            Count(Run(EMPTY_BOOKS, day, steps).payments, PaidFor(0)) == 2
  {
    hide Count, FeeOf, Run, LateTransfer;
    var b := FirstInvoice(day, t, req);
    RunConcat(EMPTY_BOOKS, day, [Arrive(t), MakeInvoice(req)], LateTransfer(0, b.invoices[0].total));
    LateTransferPaysTwice(b, day, 0, b.invoices[0].total);
  }

  // ---------------------------------------------------------------------------------------
  // The reconciliation report
  // ---------------------------------------------------------------------------------------

  /** In the report, a status mismatch comes only with an amount mismatch, an amount mismatch only
      on a failed payment, and an invoice mismatch only after a failed payment came back. */
  lemma ReportMeaning(b: Books, row: nat)
    requires Sound(b) && row < |b.payments|
    ensures b.payments[row].invoice < |b.invoices|
    ensures var p := b.payments[row];
            var reasons := Reasons(p, b.invoices[p.invoice]);
            && (StatusMismatch in reasons ==> AmountMismatch in reasons)
            && (AmountMismatch in reasons ==> p.status == Failed)
            && (InvoiceStatusMismatch in reasons ==> p.status == Paid && !Sole(b))
  {
    var p := b.payments[row];
    assert PaymentSound(b, row);
    if p.status == Paid && Sole(b) {
      assert SoleFor(b, p.invoice);
      CountPositive(b.payments, PaidFor(p.invoice), row);
      LiveIsPaidOrUnfinished(b.payments, p.invoice);
    }
  }

  /** On a run, the report shows an invoice mismatch only if some callback of the run revived a failed
      payment. */
  lemma InvoiceMismatchMeansRevival(day: DayOf, steps: seq<Step>, row: nat)
    requires row < |Run(EMPTY_BOOKS, day, steps).payments|
    ensures var b := Run(EMPTY_BOOKS, day, steps);
            var p := b.payments[row];
            p.invoice < |b.invoices| && (InvoiceStatusMismatch in Reasons(p, b.invoices[p.invoice]) ==>
                                           !NeverRevives(day, steps))
  {
    hide Run, Reasons;
    EmptyBooksAreSound();
    RunIsSound(EMPTY_BOOKS, day, steps);
    ReportMeaning(Run(EMPTY_BOOKS, day, steps), row);
    SoleExactly(day, steps);
  }

  // ---------------------------------------------------------------------------------------
  // When an invoice is made
  // ---------------------------------------------------------------------------------------

  /** The first invite with a code, free and valid at the check-out time. */
  ghost predicate InviteUsable(b: Books, row: nat, req: InvoiceRequest) {
    && row < |b.invites| && req.code == Some(b.invites[row].code) && !b.invites[row].redeemed
    && (forall i :: 0 <= i < row ==> b.invites[i].code != b.invites[row].code)
    && b.invites[row].validFrom <= req.checkOut <= b.invites[row].validUntil
  }

  /** A new invoice is made exactly for a parked, priced transaction that has none, checked out after
      it came in, with a usable invite if a code is given. */
  lemma InvoiceMadeExactly(b: Books, req: InvoiceRequest)
    ensures DecideInvoice(b, req).Success? && DecideInvoice(b, req).value.Fresh? <==>
              && req.transaction < |b.transactions|
              && (forall i :: 0 <= i < |b.invoices| ==> b.invoices[i].transaction != req.transaction)
              && b.transactions[req.transaction].parked && b.transactions[req.transaction].snapshot.Some?
              && b.transactions[req.transaction].checkIn < req.checkOut
              && (req.code.None? || req.code.value == "" || exists row: nat :: InviteUsable(b, row, req))
  {
    hide First;
    assert First(b.invoices, ForTransaction(req.transaction)).None? <==>
             forall i :: 0 <= i < |b.invoices| ==> b.invoices[i].transaction != req.transaction by {
      assert forall i :: 0 <= i < |b.invoices| ==>
               (ForTransaction(req.transaction)(b.invoices[i]) <==> b.invoices[i].transaction == req.transaction);
    }
    if req.code.Some? && req.code.value != "" {
      InviteFoundExactly(b, req);
    }
  }

  lemma InviteFoundExactly(b: Books, req: InvoiceRequest)
    requires req.code.Some? && req.code.value != ""
    ensures FindInvite(b, req).Success? <==> exists row: nat :: InviteUsable(b, row, req)
  {
    hide First;
    var code := WithCode(req.code.value);
    var found := First(b.invites, code);
    assert forall i :: 0 <= i < |b.invites| ==> (code(b.invites[i]) <==> b.invites[i].code == req.code.value);
    if FindInvite(b, req).Success? {
      assert InviteUsable(b, found.value, req);
    }
    forall row: nat | InviteUsable(b, row, req) ensures found == Some(row) {
      assert code(b.invites[row]);
    }
  }

  // ---------------------------------------------------------------------------------------
  // Replays
  // ---------------------------------------------------------------------------------------

  predicate SameInvoice(i: Invoice, j: Invoice) { i.(status := Open) == j.(status := Open) }

  predicate SamePayment(p: Payment, q: Payment) {
    p.invoice == q.invoice && p.key == q.key && p.means == q.means && p.amount == q.amount
  }

  /** Rows are never removed, and what a replay compares is never rewritten. */
  ghost predicate Extends(b: Books, b': Books) {
    && |b.transactions| <= |b'.transactions| && |b.invites| <= |b'.invites|
    && |b.invoices| <= |b'.invoices| && |b.payments| <= |b'.payments|
    && (forall i :: 0 <= i < |b.invites| ==>
          b'.invites[i].code == b.invites[i].code && b'.invites[i].freeMinutes == b.invites[i].freeMinutes)
    && (forall i :: 0 <= i < |b.invoices| ==> SameInvoice(b'.invoices[i], b.invoices[i]))
    && (forall i :: 0 <= i < |b.payments| ==> SamePayment(b'.payments[i], b.payments[i]))
  }

  lemma HearExtends(b: Books, c: Callback)
    ensures Extends(b, AfterCallback(b, c))
  {
    hide First;
  }

  lemma MakePaymentExtends(b: Books, invoice: nat, means: PaymentMethod, key: string)
    ensures Extends(b, AfterPayment(b, invoice, means, key))
  {
  }

  lemma NextExtends(b: Books, day: DayOf, step: Step)
    requires SnapshotsValid(b)
    ensures Extends(b, Next(b, day, step))
  {
    match step
    case MakePayment(invoice, means, key) => MakePaymentExtends(b, invoice, means, key);
    case Hear(c) => HearExtends(b, c);
    case _ =>
  }

  lemma {:induction false} RunExtends(b: Books, day: DayOf, steps: seq<Step>)
    requires SnapshotsValid(b)
    ensures Extends(b, Run(b, day, steps))
  {
    if steps != [] {
      RunExtends(b, day, steps[..|steps| - 1]);
      NextExtends(Run(b, day, steps[..|steps| - 1]), day, steps[|steps| - 1]);
    }
  }

  /** Asking again for an invoice that a request made, at any later time, returns the same row and
      changes nothing, unless the request carried an empty invite code, which is refused. */
  lemma InvoiceReplay(b: Books, day: DayOf, req: InvoiceRequest, later: seq<Step>)
    requires Sound(b) && DecideInvoice(b, req).Success? && DecideInvoice(b, req).value.Fresh?
    ensures SnapshotsValid(AfterInvoice(b, day, req))
    ensures var b' := Run(AfterInvoice(b, day, req), day, later);
            && DecideInvoice(b', req)
               == (if req.code == Some("") then Failure(InvoiceExists) else Success(Existing(|b.invoices|)))
            && AfterInvoice(b', day, req) == b'
  {
    hide Count, First, LineSum, FeeOf, Run;
    var b1 := AfterInvoice(b, day, req);
    MakeInvoiceIsSound(b, day, req);
    RunIsSound(b1, day, later);
    RunExtends(b1, day, later);
    var b' := Run(b1, day, later);
    var row := |b.invoices|;
    var v, v' := b1.invoices[row], b'.invoices[row];
    assert SameInvoice(v', v) && InvoiceSound(b1, row);
    var found := First(b'.invoices, ForTransaction(req.transaction));
    assert ForTransaction(req.transaction)(v');
    assert found == Some(row);
    assert req.transaction < |b'.transactions|;
    var invite := DecideInvoice(b, req).value.invite;
    assert InviteMinutes(b', v'.invite) == InviteMinutes(b, invite);
    assert InviteCode(b', v') == if invite.Some? then req.code else None;
  }

  /** Asking again for a payment with the same key and method, at any later time, returns the same
      row and changes nothing. */
  lemma PaymentReplay(b: Books, day: DayOf, invoice: nat, means: PaymentMethod, key: string, later: seq<Step>)
    requires Sound(b) && DecidePayment(b, invoice, means, key).Success?
    ensures SnapshotsValid(AfterPayment(b, invoice, means, key))
    ensures var b' := Run(AfterPayment(b, invoice, means, key), day, later);
            && DecidePayment(b', invoice, means, key) == DecidePayment(b, invoice, means, key)
            && AfterPayment(b', invoice, means, key) == b'
  {
    hide Count, First, LineSum, Run;
    var b1 := AfterPayment(b, invoice, means, key);
    MakePaymentIsSound(b, invoice, means, key);
    RunIsSound(b1, day, later);
    RunExtends(b1, day, later);
    var b' := Run(b1, day, later);
    var row := DecidePayment(b, invoice, means, key).value;
    assert SamePayment(b'.payments[row], b1.payments[row]);
    assert WithKey(invoice, key)(b'.payments[row]);
    assert First(b'.payments, WithKey(invoice, key)) == Some(row);
  }

  /** A repeated callback changes nothing. */
  lemma CallbackReplay(b: Books, c: Callback)
    requires Sound(b) && DecideCallback(b, c).Success?
    ensures AfterCallback(AfterCallback(b, c), c) == AfterCallback(b, c)
  {
    hide Count, First, LineSum;
    var row := DecideCallback(b, c).value.row;
    assert PaymentSound(b, row);
    var b' := AfterCallback(b, c);
    assert WithRef(c.ref)(b'.payments[row]);
    forall i | 0 <= i < |b'.payments| && i != row ensures !WithRef(c.ref)(b'.payments[i]) {
      assert PaymentSound(b, i) && b'.payments[i] == b.payments[i];
    }
    assert First(b'.payments, WithRef(c.ref)) == Some(row);
  }
}
