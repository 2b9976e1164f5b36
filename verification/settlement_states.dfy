/**
 * What tells one answer about a payment's refund from another, and which payments a pass reports: in terms of the
 * refunds Stripe listed and the answer its create gave.
 */
module SettlementStates {
  import opened Wrappers
  import opened Refunds
  import opened Settlement

  function Sum(xs: seq<nat>): nat {
    if xs == [] then 0 else xs[0] + Sum(xs[1..])
  }

  lemma {:induction false} SumMore(xs: seq<nat>, x: nat)
    ensures Sum(xs + [x]) == Sum(xs) + x
  {
    if xs != [] {
      assert (xs + [x])[1..] == xs[1..] + [x];
      SumMore(xs[1..], x);
    }
  }

  // --- One payment --------------------------------------------------------------------------------------

  /** What the refunds listed that succeeded amount to. */
  function Back(refunds: seq<Refund>): nat {
    Sum(seq(|refunds|, i requires 0 <= i < |refunds| => if refunds[i].status == Succeeded then refunds[i].amount
        else 0))
  }

  lemma {:induction false} TotalIsBack(refunds: seq<Refund>)
    ensures SucceededTotal(refunds) == Back(refunds)
  {
    if refunds != [] {
      var n := |refunds| - 1;
      TotalIsBack(refunds[..n]);
      var x: nat := if refunds[n].status == Succeeded then refunds[n].amount else 0;
      var before: seq<nat> :=
        seq(n, i requires 0 <= i < n => if refunds[i].status == Succeeded then refunds[i].amount else 0);
      assert before == seq(n, i
          requires 0 <= i < n => if refunds[..n][i].status == Succeeded then refunds[..n][i].amount else 0);
      assert before + [x] == seq(|refunds|, i requires 0 <= i < |refunds| =>
          if refunds[i].status == Succeeded then refunds[i].amount else 0);
      SumMore(before, x);
    }
  }

  /** The refunds listed that have failed or been canceled. */
  function Lost(refunds: seq<Refund>): set<nat> {
    set i: nat | i < |refunds| && (refunds[i].status == Failed || refunds[i].status == Canceled)
  }

  lemma {:induction false} OverIsLost(refunds: seq<Refund>)
    ensures OverCount(refunds) == |Lost(refunds)|
  {
    if refunds != [] {
      var n := |refunds| - 1;
      OverIsLost(refunds[..n]);
      assert Lost(refunds) == Lost(refunds[..n]) +
          if refunds[n].status == Failed || refunds[n].status == Canceled then {n} else {};
    }
  }

  /** The list was read, fits a page, and does not cover the amount. */
  predicate Short(l: Line, payment: string, amount: nat) {
    var (at, turn) := Waited(l);
    var refunds := RefundsOf(at.world, payment);
    turn.reply == Answered && |refunds| <= 100 && Back(refunds) < amount
  }

  predicate Listed(l: Line, payment: string, status: Status) {
    var refunds := RefundsOf(Waited(l).0.world, payment);
    exists i :: 0 <= i < |refunds| && refunds[i].status == status
  }

  /** A refund is asked for: what is left of the amount, none listed pending or requiring action. */
  predicate Asks(l: Line, payment: string, amount: nat) {
    Short(l, payment, amount) && !Listed(l, payment, RequiresAction) && !Listed(l, payment, Pending)
  }

  /** The key it is asked for under: how many were listed failed or canceled. */
  function KeyOf(l: Line, purpose: string, payment: string): Key {
    Key(purpose, |Lost(RefundsOf(Waited(l).0.world, payment))|)
  }

  /** The create was answered with `status`: its key's refund's at first, or a new refund's. */
  predicate AnsweredAs(l: Line, purpose: string, payment: string, status: Status) {
    var (made, turn) := Waited(Waited(l).0);
    var refunds := RefundsOf(made.world, payment);
    var key := Some(KeyOf(l, purpose, payment));
    && turn.reply == Answered
    && if exists i :: 0 <= i < |refunds| && refunds[i].key == key
       then exists i :: 0 <= i < |refunds| && refunds[i].key == key && refunds[i].answer == status
                        && forall j :: i < j < |refunds| ==> refunds[j].key != key
       else turn.first == status
  }

  predicate NeedsCustomer(l: Line, purpose: string, payment: string, amount: nat) {
    && Short(l, payment, amount)
    && (Listed(l, payment, RequiresAction)
        || (!Listed(l, payment, Pending) && AnsweredAs(l, purpose, payment, RequiresAction)))
  }

  predicate NeedsStripe(l: Line, purpose: string, payment: string, amount: nat) {
    && Short(l, payment, amount) && !Listed(l, payment, RequiresAction)
    && (Listed(l, payment, Pending)
        || AnsweredAs(l, purpose, payment, Pending)
        || AnsweredAs(l, purpose, payment, Failed)
        || AnsweredAs(l, purpose, payment, Canceled))
  }

  lemma {:induction false} KeyedLast(refunds: seq<Refund>, key: Key)
    ensures var k := Keyed(refunds, key);
            && (k.Some? <==> exists i :: 0 <= i < |refunds| && refunds[i].key == Some(key))
            && (k.Some? ==> forall j :: k.value < j < |refunds| ==> refunds[j].key != Some(key))
  {
    if refunds != [] {
      KeyedLast(refunds[..|refunds| - 1], key);
      var k := Keyed(refunds, key);
      assert k.Some? ==> refunds[k.value].key == Some(key);
    }
  }

  lemma AnswerIs(l: Line, purpose: string, payment: string, status: Status)
    requires Waited(Waited(l).0).1.reply == Answered
    ensures var (made, turn) := Waited(Waited(l).0);
            AnsweredAs(l, purpose, payment, status) <==>
            Answer(made.world, payment, KeyOf(l, purpose, payment), turn.first) == status
  {
    hide Waited;
    KeyedLast(RefundsOf(Waited(Waited(l).0).0.world, payment), KeyOf(l, purpose, payment));
  }

  lemma DecidesAs(refunds: seq<Refund>, amount: nat)
    ensures Decide(refunds, amount) ==
            if |refunds| > 100 then TooMany
            else if Back(refunds) >= amount then Refunded
            else if exists i :: 0 <= i < |refunds| && refunds[i].status == RequiresAction then Action
            else if exists i :: 0 <= i < |refunds| && refunds[i].status == Pending then Waiting
            else Make(amount - Back(refunds), |Lost(refunds)|)
  {
    TotalIsBack(refunds);
    OverIsLost(refunds);
  }

  /**
   * A payment awaits its customer exactly when a refund of it was listed, or its create answered, as requiring
   * action; it awaits Stripe exactly when one was listed pending, or the create was answered with another status
   * that has not succeeded. It is refunded exactly when the list covers it or the create succeeded, and every other
   * answer is a failed request or a second page.
   */
  lemma RefundingExactly(l: Line, purpose: string, payment: string, amount: nat)
    ensures var r := Refunding(l, purpose, payment, amount).1;
            var (at, turn) := Waited(l);
            var refunds := RefundsOf(at.world, payment);
            && (r == Ok(AwaitsCustomer) <==> NeedsCustomer(l, purpose, payment, amount))
            && (r == Ok(AwaitsStripe) <==> NeedsStripe(l, purpose, payment, amount))
            && (r == Ok(FullyRefunded) <==>
                  || (turn.reply == Answered && |refunds| <= 100 && Back(refunds) >= amount)
                  || (Asks(l, payment, amount) && AnsweredAs(l, purpose, payment, Succeeded)))
            && (r == Err(MoreThanAPage) <==> turn.reply == Answered && |refunds| > 100)
            && (r == Err(StripeFailed) <==>
                  turn.reply != Answered || (Asks(l, payment, amount) && Waited(at).1.reply != Answered))
  {
    var (at, turn) := Waited(l);
    DecidesAs(RefundsOf(at.world, payment), amount);
    var (made, next) := Waited(at);
    if next.reply == Answered {
      AnswerIs(l, purpose, payment, Succeeded);
      AnswerIs(l, purpose, payment, RequiresAction);
      AnswerIs(l, purpose, payment, Pending);
      AnswerIs(l, purpose, payment, Failed);
      AnswerIs(l, purpose, payment, Canceled);
    }
    hide Decide, Back, KeyOf, AnsweredAs, Waited;
    assert next.reply != Answered ==>
        forall s :: !AnsweredAs(l, purpose, payment, s) by { AnsweredOnly(l, purpose, payment); }
    RefundingIs(l, purpose, payment, amount);
  }

  lemma AnsweredOnly(l: Line, purpose: string, payment: string)
    ensures Waited(Waited(l).0).1.reply != Answered ==> forall s :: !AnsweredAs(l, purpose, payment, s)
  {
  }

  /** The same by cases, the create's answer as it came. */
  lemma RefundingIs(l: Line, purpose: string, payment: string, amount: nat)
    ensures var (at, turn) := Waited(l);
            var refunds := RefundsOf(at.world, payment);
            var (made, next) := Waited(at);
            var answer := Answer(made.world, payment, KeyOf(l, purpose, payment), next.first);
            Refunding(l, purpose, payment, amount).1 ==
            if turn.reply != Answered then Err(StripeFailed)
            else if |refunds| > 100 then Err(MoreThanAPage)
            else if Back(refunds) >= amount then Ok(FullyRefunded)
            else if Listed(l, payment, RequiresAction) then Ok(AwaitsCustomer)
            else if Listed(l, payment, Pending) then Ok(AwaitsStripe)
            else if next.reply != Answered then Err(StripeFailed)
            else if answer == Succeeded then Ok(FullyRefunded)
            else if answer == RequiresAction then Ok(AwaitsCustomer)
            else Ok(AwaitsStripe)
  {
    hide Waited, Answer, Created;
    DecidesAs(RefundsOf(Waited(l).0.world, payment), amount);
    hide Decide, Back, Lost;
  }

  /**
   * What a pass makes of the payment's refunds: one more, of what is left and under its key, exactly when it asks, is
   * not refused, and its key has none yet.
   */
  lemma RefundMade(l: Line, purpose: string, payment: string, amount: nat)
    ensures var end := Refunding(l, purpose, payment, amount).0;
            var (at, _) := Waited(l);
            var (made, next) := Waited(at);
            var before := RefundsOf(made.world, payment);
            var key := KeyOf(l, purpose, payment);
            && (!Asks(l, payment, amount) ==> end == at)
            && (Asks(l, payment, amount) ==>
                  && end.coming == made.coming && end.world.amounts == made.world.amounts
                  && (forall p :: p != payment ==> RefundsOf(end.world, p) == RefundsOf(made.world, p))
                  && RefundsOf(end.world, payment) == before +
                       if next.reply != Refused && forall i :: 0 <= i < |before| ==> before[i].key != Some(key)
                       then [Refund(Some(key), amount - Back(RefundsOf(at.world, payment)), next.first, next.first,
                           {next.first})]
                       else [])
  {
    hide Waited;
    var (at, _) := Waited(l);
    var (made, _) := Waited(at);
    DecidesAs(RefundsOf(at.world, payment), amount);
    KeyedLast(RefundsOf(made.world, payment), KeyOf(l, purpose, payment));
    hide Decide, Back, Lost;
  }

  /** The ordinary first refund: the whole amount, under the key that counts none, waited on while Stripe settles it. */
  lemma FirstRefund(w: World, purpose: string, payment: string, amount: nat)
    requires RefundsOf(w, payment) == [] && amount > 0
    ensures var (end, r) := Refunding(Line(w, []), purpose, payment, amount);
            && r == Ok(AwaitsStripe)
            && RefundsOf(end.world, payment) == [Refund(Some(Key(purpose, 0)), amount, Pending, Pending, {Pending})]
  {
    var l := Line(w, []);
    RefundMade(l, purpose, payment, amount);
    RefundingIs(l, purpose, payment, amount);
    assert Lost([]) == {};
    assert Back([]) == 0;
  }

  // --- A pass -------------------------------------------------------------------------------------------

  /** A payment Stripe took and can refund, by the name it refunds it by. */
  predicate TakenAs(payment: InvoicePayment, name: string) {
    payment.paidBy == ByIntent(Some(name)) || payment.paidBy == ByCharge(Some(name))
  }

  predicate Taken(payment: InvoicePayment) {
    match payment.paidBy
    case ByIntent(Some(_)) => true
    case ByCharge(Some(_)) => true
    case _ => false
  }

  function PaidBy(payment: InvoicePayment): nat {
    match payment.amountPaid case Some(n) => n case None => 0
  }

  /** What Stripe took of the payments of an invoice. */
  function TakenOf(payments: seq<InvoicePayment>): nat {
    Sum(seq(|payments|, j requires 0 <= j < |payments| => if Taken(payments[j]) then PaidBy(payments[j]) else 0))
  }

  lemma {:induction false} CollectedIsTaken(payments: seq<InvoicePayment>)
    ensures Collected(payments) == TakenOf(payments)
  {
    if payments != [] {
      var n := |payments| - 1;
      CollectedIsTaken(payments[..n]);
      var x: nat := if Taken(payments[n]) then PaidBy(payments[n]) else 0;
      var before: seq<nat> := seq(n, j requires 0 <= j < n => if Taken(payments[j]) then PaidBy(payments[j]) else 0);
      assert before ==
        seq(n, j requires 0 <= j < n => if Taken(payments[..n][j]) then PaidBy(payments[..n][j]) else 0);
      assert before + [x] == seq(|payments|, j requires 0 <= j < |payments| =>
          if Taken(payments[j]) then PaidBy(payments[j]) else 0);
      SumMore(before, x);
    }
  }

  /** Stripe as the pass finds it when it comes to payment `j` of invoice `i`. */
  function When(l: Line, purpose: string, more: bool, invoices: seq<Invoice>, i: nat, j: nat): Line
    requires i < |invoices| && j < |invoices[i].payments|
  {
    InvoiceRun(InvoicesRun(l, purpose, more, invoices[..i]).line, purpose, invoices[i], j).line
  }

  /** A payment of invoice `i` that was found in `state`. */
  predicate FoundIn(l: Line, purpose: string, more: bool, invoices: seq<Invoice>, i: nat, j: nat, name: Name,
      state: RefundState)
  {
    && i < |invoices| && j < |invoices[i].payments| && name.0 == invoices[i].id
    && TakenAs(invoices[i].payments[j], name.1)
    && Refunding(When(l, purpose, more, invoices, i, j), purpose, name.1,
        PaidBy(invoices[i].payments[j])).1 == Ok(state)
  }

  lemma RefundableIs(payment: InvoicePayment)
    ensures Taken(payment) <==> Refundable(payment).Some?
    ensures forall name :: TakenAs(payment, name) <==> Refundable(payment) == Some(name)
    ensures PaidBy(payment) == Amount(payment)
  {
  }

  /** The names found in `state` among the first `n` payments of an invoice. */
  lemma {:induction false} InvoiceNames(l: Line, purpose: string, invoice: Invoice, n: nat, state: RefundState,
      name: Name)
    requires n <= |invoice.payments| && InvoiceRun(l, purpose, invoice, n).error.None?
    ensures name in Names(AskedOf(invoice, n), InvoiceRun(l, purpose, invoice, n).states, state) <==>
            name.0 == invoice.id && exists j: nat ::
              j < n && TakenAs(invoice.payments[j], name.1)
              && Refunding(InvoiceRun(l, purpose, invoice, j).line, purpose, name.1,
                  PaidBy(invoice.payments[j])).1 == Ok(state)
    decreases n
  {
    hide Refunding, Page;
    if n > 0 {
      var payment := invoice.payments[n - 1];
      var before := InvoiceRun(l, purpose, invoice, n - 1);
      RefundableIs(payment);
      assert before.error.None?;
      InvoiceNames(l, purpose, invoice, n - 1, state, name);
      if Refundable(payment).Some? {
        var found := Refunding(before.line, purpose, Refundable(payment).value, Amount(payment)).1;
        NamesOne(AskedOf(invoice, n - 1), before.states,
          Asked(invoice.id, Refundable(payment).value, Amount(payment)), found.value);
      } else {
        assert AskedOf(invoice, n) == AskedOf(invoice, n - 1);
      }
    }
  }

  lemma {:induction false} PassNames(l: Line, purpose: string, more: bool, invoices: seq<Invoice>, state: RefundState,
      name: Name)
    requires InvoicesRun(l, purpose, more, invoices).error.None?
    ensures name in Names(AllAsked(invoices), InvoicesRun(l, purpose, more, invoices).states, state) <==>
            exists i: nat, j: nat :: FoundIn(l, purpose, more, invoices, i, j, name, state)
    decreases |invoices|
  {
    hide Refunding, Page, InvoiceRun, Names, AskedOf;
    if invoices == [] {
      assert Names([], [], state) == [] by { NothingNamed(state); }
    } else {
      var n := |invoices| - 1;
      var some, last := invoices[..n], invoices[n];
      PassNames(l, purpose, more, some, state, name);
      var before := InvoicesRun(l, purpose, more, some);
      var one := InvoiceRun(before.line, purpose, last, |last.payments|);
      InvoiceNames(before.line, purpose, last, |last.payments|, state, name);
      NamesMore(AllAsked(some), before.states, AskedOf(last, |last.payments|), one.states, state);
      FoundMore(l, purpose, more, invoices, name, state);
    }
  }

  lemma NothingNamed(state: RefundState)
    ensures Names([], [], state) == []
  {
  }

  /** What is found of one more invoice. */
  lemma FoundMore(l: Line, purpose: string, more: bool, invoices: seq<Invoice>, name: Name, state: RefundState)
    requires invoices != []
    ensures var n := |invoices| - 1;
            (exists i: nat, j: nat :: FoundIn(l, purpose, more, invoices, i, j, name, state)) <==>
            || (exists i: nat, j: nat :: FoundIn(l, purpose, more, invoices[..n], i, j, name, state))
            || (name.0 == invoices[n].id && exists j: nat ::
                  j < |invoices[n].payments| && TakenAs(invoices[n].payments[j], name.1)
                  && Refunding(InvoiceRun(InvoicesRun(l, purpose, more, invoices[..n]).line, purpose, invoices[n],
                      j).line,
                       purpose, name.1, PaidBy(invoices[n].payments[j])).1 == Ok(state))
  {
    hide Refunding, InvoiceRun, InvoicesRun, TakenAs, PaidBy;
    var n := |invoices| - 1;
    var some := invoices[..n];
    forall i: nat, j: nat | i < n
      ensures FoundIn(l, purpose, more, invoices, i, j, name, state) <==>
              FoundIn(l, purpose, more, some, i, j, name, state)
    {
      assert some[..i] == invoices[..i];
    }
    if exists i: nat, j: nat :: FoundIn(l, purpose, more, some, i, j, name, state) {
      var i: nat, j: nat :| FoundIn(l, purpose, more, some, i, j, name, state);
      assert FoundIn(l, purpose, more, invoices, i, j, name, state);
    }
    forall j: nat ensures FoundIn(l, purpose, more, invoices, n, j, name, state) <==>
        name.0 == invoices[n].id && j < |invoices[n].payments| && TakenAs(invoices[n].payments[j], name.1)
        && Refunding(InvoiceRun(InvoicesRun(l, purpose, more, invoices[..n]).line, purpose, invoices[n], j).line,
             purpose, name.1, PaidBy(invoices[n].payments[j])).1 == Ok(state)
    {
    }
  }

  /** A payment of invoice `i` the pass found waiting on its customer. */
  predicate CustomerAt(l: Line, purpose: string, more: bool, invoices: seq<Invoice>, i: nat, j: nat, name: Name) {
    && i < |invoices| && j < |invoices[i].payments| && name.0 == invoices[i].id
    && TakenAs(invoices[i].payments[j], name.1)
    && NeedsCustomer(When(l, purpose, more, invoices, i, j), purpose, name.1, PaidBy(invoices[i].payments[j]))
  }

  predicate StripeAt(l: Line, purpose: string, more: bool, invoices: seq<Invoice>, i: nat, j: nat, name: Name) {
    && i < |invoices| && j < |invoices[i].payments| && name.0 == invoices[i].id
    && TakenAs(invoices[i].payments[j], name.1)
    && NeedsStripe(When(l, purpose, more, invoices, i, j), purpose, name.1, PaidBy(invoices[i].payments[j]))
  }

  lemma FoundAt(l: Line, purpose: string, more: bool, invoices: seq<Invoice>, name: Name)
    ensures (exists i: nat, j: nat :: FoundIn(l, purpose, more, invoices, i, j, name, AwaitsCustomer)) <==>
            exists i: nat, j: nat :: CustomerAt(l, purpose, more, invoices, i, j, name)
    ensures (exists i: nat, j: nat :: FoundIn(l, purpose, more, invoices, i, j, name, AwaitsStripe)) <==>
            exists i: nat, j: nat :: StripeAt(l, purpose, more, invoices, i, j, name)
  {
    hide Refunding, NeedsCustomer, NeedsStripe, When, TakenAs, PaidBy;
    forall i: nat, j: nat
      ensures FoundIn(l, purpose, more, invoices, i, j, name, AwaitsCustomer) <==>
              CustomerAt(l, purpose, more, invoices, i, j, name)
      ensures FoundIn(l, purpose, more, invoices, i, j, name, AwaitsStripe) <==>
              StripeAt(l, purpose, more, invoices, i, j, name)
    {
      if i < |invoices| && j < |invoices[i].payments| {
        RefundingExactly(When(l, purpose, more, invoices, i, j), purpose, name.1, PaidBy(invoices[i].payments[j]));
      }
    }
  }

  /** Stripe took less of invoice `i` than was due on it. */
  predicate ShortAt(invoices: seq<Invoice>, i: nat, short: (string, nat)) {
    && i < |invoices| && short.0 == invoices[i].id
    && TakenOf(invoices[i].payments) + short.1 == invoices[i].amountDue && short.1 > 0
  }

  lemma {:induction false} ShortfallsAre(invoices: seq<Invoice>, short: (string, nat))
    ensures short in Shortfalls(invoices) <==> exists i: nat :: ShortAt(invoices, i, short)
  {
    hide TakenOf, Collected;
    if invoices != [] {
      var n := |invoices| - 1;
      ShortfallsAre(invoices[..n], short);
      CollectedIsTaken(invoices[n].payments);
      assert forall i: nat :: i < n ==> (ShortAt(invoices, i, short) <==> ShortAt(invoices[..n], i, short));
      assert short in Shortfalls(invoices) <==> short in Shortfalls(invoices[..n]) || ShortAt(invoices, n, short);
    }
  }

  /**
   * What a pass that came to its end reports: the payments whose refund was listed, or whose create was answered, as
   * requiring action, those one was pending of or whose create was answered otherwise than as succeeded, and what
   * Stripe never took; and no error exactly when there are none of these.
   */
  lemma PassReports(l: Line, purpose: string, more: bool, invoices: seq<Invoice>)
    requires InvoicesRun(l, purpose, more, invoices).error.None?
    ensures var failed := RefundedInvoices(l, purpose, more, invoices).1;
            && (failed.Some? ==>
                  && failed.value.Unsettled?
                  && (forall name :: name in failed.value.action <==>
                        exists i: nat, j: nat :: CustomerAt(l, purpose, more, invoices, i, j, name))
                  && (forall name :: name in failed.value.waiting <==>
                        exists i: nat, j: nat :: StripeAt(l, purpose, more, invoices, i, j, name))
                  && (forall short :: short in failed.value.byHand <==>
                        exists i: nat :: ShortAt(invoices, i, short)))
            && (failed.None? <==>
                  && (forall i: nat, j: nat, name :: !CustomerAt(l, purpose, more, invoices, i, j, name))
                  && (forall i: nat, j: nat, name :: !StripeAt(l, purpose, more, invoices, i, j, name))
                  && (forall i: nat, short :: !ShortAt(invoices, i, short)))
  {
    hide InvoicesRun, AllAsked, Names, Shortfalls, CustomerAt, StripeAt, ShortAt, FoundIn;
    var states := InvoicesRun(l, purpose, more, invoices).states;
    var action := Names(AllAsked(invoices), states, AwaitsCustomer);
    var waiting := Names(AllAsked(invoices), states, AwaitsStripe);
    var byHand := Shortfalls(invoices);
    forall name
      ensures name in action <==> exists i: nat, j: nat :: CustomerAt(l, purpose, more, invoices, i, j, name)
      ensures name in waiting <==> exists i: nat, j: nat :: StripeAt(l, purpose, more, invoices, i, j, name)
    {
      FoundAt(l, purpose, more, invoices, name);
      PassNames(l, purpose, more, invoices, AwaitsCustomer, name);
      PassNames(l, purpose, more, invoices, AwaitsStripe, name);
    }
    forall short ensures short in byHand <==> exists i: nat :: ShortAt(invoices, i, short) {
      ShortfallsAre(invoices, short);
    }
    assert action != [] ==> action[0] in action;
    assert waiting != [] ==> waiting[0] in waiting;
    assert byHand != [] ==> byHand[0] in byHand;
    assert forall i: nat, j: nat, name :: CustomerAt(l, purpose, more, invoices, i, j, name) ==> name in action;
    assert forall i: nat, j: nat, name :: StripeAt(l, purpose, more, invoices, i, j, name) ==> name in waiting;
    assert forall i: nat, short :: ShortAt(invoices, i, short) ==> short in byHand;
  }

  lemma {:induction false} PaymentsRead(l: Line, purpose: string, invoice: Invoice, n: nat)
    requires n <= |invoice.payments| && invoice.morePayments
    ensures InvoiceRun(l, purpose, invoice, n).error.Some?
    decreases n
  {
    if n > 0 { PaymentsRead(l, purpose, invoice, n - 1); }
  }

  /** A pass comes to its end only over whole lists: one page of invoices, and one of each invoice's payments. */
  lemma {:induction false} PagesRead(l: Line, purpose: string, more: bool, invoices: seq<Invoice>)
    requires InvoicesRun(l, purpose, more, invoices).error.None?
    ensures !more && forall i :: 0 <= i < |invoices| ==> !invoices[i].morePayments
    decreases |invoices|
  {
    hide InvoiceRun, AllAsked, AskedOf, Waited;
    if invoices != [] {
      var n := |invoices| - 1;
      PagesRead(l, purpose, more, invoices[..n]);
      var before := InvoicesRun(l, purpose, more, invoices[..n]);
      if invoices[n].morePayments {
        PaymentsRead(before.line, purpose, invoices[n], |invoices[n].payments|);
      }
    }
  }

  /** The invoices a pass covers, and no others. */
  lemma {:induction false} CoveredOnly(invoices: seq<Invoice>, covers: Invoice -> bool, invoice: Invoice)
    ensures invoice in Filter(invoices, covers) <==> invoice in invoices && covers(invoice)
  {
    if invoices != [] {
      var n := |invoices| - 1;
      CoveredOnly(invoices[..n], covers, invoice);
      assert invoices == invoices[..n] + [invoices[n]];
    }
  }

  // --- The ordinary withdrawal --------------------------------------------------------------------------

  /**
   * An invoice Stripe took whole in one payment already refunded: the withdrawal is stamped, its subscription
   * ended.
   */
  lemma RefundedSettles(w: World, purpose: string, id: string, payment: string, amount: nat, now: int)
    requires Back(RefundsOf(w, payment)) >= amount && |RefundsOf(w, payment)| <= 100
    ensures var invoice := Invoice(id, amount, [InvoicePayment(ByIntent(Some(payment)), Some(amount))], false);
            var (end, row, failed) := Settling(Line(w, []), Withdrawal(false, None), purpose, false, [invoice], now);
            end == Line(w, []) && row == Withdrawal(true, Some(now)) && failed == None
  {
    hide Decide;
    var l := Line(w, []);
    var invoice := Invoice(id, amount, [InvoicePayment(ByIntent(Some(payment)), Some(amount))], false);
    var payments := invoice.payments;
    RefundingIs(l, purpose, payment, amount);
    RefundMade(l, purpose, payment, amount);
    hide Refunding, Back;
    assert Refunding(l, purpose, payment, amount) == (l, Ok(FullyRefunded));
    assert InvoiceRun(l, purpose, invoice, 0) == Progress(l, None, []);
    assert InvoiceRun(l, purpose, invoice, 1) == Progress(l, None, [FullyRefunded]);
    FirstPage(l, purpose, false);
    assert [invoice][..0] == [] && [] + [FullyRefunded] == [FullyRefunded];
    assert InvoicesRun(l, purpose, false, [invoice]) == Progress(l, None, [FullyRefunded]);
    hide InvoicesRun, InvoiceRun;
    assert payments[..0] == [];
    assert Collected([]) == 0 && Collected(payments) == amount;
    assert Shortfalls([]) == [] && Shortfalls([invoice]) == [];
    assert AskedOf(invoice, 0) == [] && AskedOf(invoice, 1) == [Asked(id, payment, amount)];
    assert AllAsked([]) == [] && AllAsked([invoice]) == [Asked(id, payment, amount)];
    NamesOne([], [], Asked(id, payment, amount), FullyRefunded);
    assert [] + [Asked(id, payment, amount)] == [Asked(id, payment, amount)];
  }
}
