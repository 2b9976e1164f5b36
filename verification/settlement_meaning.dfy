/**
 * What a stamped withdrawal means: every payment of its invoices given back in full, whatever others did, and
 * exactly when that still stands.
 */
module SettlementMeaning {
  import opened Wrappers
  import opened Refunds
  import opened RefundTotals
  import opened Settlement

  // --- What an answer means ---------------------------------------------------------------------------

  predicate Covered(w: World, payment: string, amount: nat) {
    SucceededTotal(RefundsOf(w, payment)) >= amount
  }

  /** Given back in full, whatever came back of it since. */
  predicate GivenBack(w: World, asked: Asked) {
    Given(RefundsOf(w, asked.payment)) >= asked.amount
  }

  /** Stripe's invoices and its payments agree on what was paid. */
  predicate AmountsAgree(w: World, invoice: Invoice) {
    forall j :: 0 <= j < |invoice.payments| && Refundable(invoice.payments[j]).Some? ==>
      Amount(invoice.payments[j]) == AmountOf(w, Refundable(invoice.payments[j]).value)
  }

  predicate AllAgree(w: World, invoices: seq<Invoice>) {
    forall i :: 0 <= i < |invoices| ==> AmountsAgree(w, invoices[i])
  }

  lemma WaitedSound(l: Line)
    requires Sound(l.world)
    ensures Sound(Waited(l).0.world) && Follows(l.world, Waited(l).0.world)
  {
    hide Sound, Follows;
    if l.coming == [] {
      FollowsItself(l.world);
    } else {
      RunSound(l.world, l.coming[0].others);
    }
  }

  /** A refund under a key that succeeded has, with those before it, given the whole amount. */
  lemma KeyedGives(refunds: seq<Refund>, amount: nat, i: nat)
    requires AllRecorded(refunds) && Completing(refunds, amount)
    requires i < |refunds| && refunds[i].key.Some? && refunds[i].answer.Succeeded?
    ensures Given(refunds) >= amount
  {
    assert Recorded(refunds[i]);
    assert refunds[..i + 1][..i] == refunds[..i];
    GivenGrows(refunds[..i + 1], refunds);
  }

  /** A create decided from a list: what it answers was given. */
  lemma CreatingGives(l: Line, payment: string, purpose: string, amount: nat)
    requires Sound(l.world) && amount == AmountOf(l.world, payment)
    requires Decide(RefundsOf(l.world, payment), amount).Make?
    ensures var decision := Decide(RefundsOf(l.world, payment), amount);
            var (end, r) := Creating(l, payment, Key(purpose, decision.count), decision.amount);
            && Sound(end.world) && Follows(l.world, end.world)
            && (r == Ok(FullyRefunded) ==> Given(RefundsOf(end.world, payment)) >= amount)
  {
    hide Decide, Created, Answer, Waited, Given;
    var seen := RefundsOf(l.world, payment);
    var decision := Decide(seen, amount);
    var key := Key(purpose, decision.count);
    var (at, turn) := Waited(l);
    WaitedSound(l);
    assert AllRecorded(seen) && Behind(seen, RefundsOf(at.world, payment)) by {
      assert PaymentSound(l.world, payment);
    }
    CreatedSound(at.world, seen, payment, purpose, turn.first);
    var after := Created(at.world, payment, key, decision.amount, turn.first);
    hide Sound, Follows;
    FollowsOn(l.world, at.world, after);
    if Answer(at.world, payment, key, turn.first).Succeeded? {
      AnsweredGives(at.world, payment, key, decision.amount, turn.first, amount);
    }
  }

  lemma AnsweredGives(w: World, payment: string, key: Key, rest: nat, first: Status, amount: nat)
    requires Sound(Created(w, payment, key, rest, first))
             && AmountOf(Created(w, payment, key, rest, first), payment) == amount
    requires Answer(w, payment, key, first).Succeeded?
    ensures Given(RefundsOf(Created(w, payment, key, rest, first), payment)) >= amount
  {
    hide Created, Answer;
    var after := Created(w, payment, key, rest, first);
    assert PaymentSound(after, payment);
    MadeAnswers(w, payment, key, rest, first);
    KeyedGives(RefundsOf(after, payment), amount, Keyed(RefundsOf(after, payment), key).value);
  }

  /** After a create its key's refund is there, as it was answered. */
  lemma MadeAnswers(w: World, payment: string, key: Key, amount: nat, first: Status)
    ensures var made := RefundsOf(Created(w, payment, key, amount, first), payment);
            Keyed(made, key).Some? && made[Keyed(made, key).value].answer == Answer(w, payment, key, first)
  {
  }

  /** One payment's answer: fully refunded only once the whole amount was given; else its list showed it uncovered. */
  lemma RefundingGives(l: Line, purpose: string, payment: string, amount: nat)
    requires Sound(l.world) && amount == AmountOf(l.world, payment)
    ensures var (end, r) := Refunding(l, purpose, payment, amount);
            && Sound(end.world) && Follows(l.world, end.world)
            && (r == Ok(FullyRefunded) ==> Given(RefundsOf(end.world, payment)) >= amount)
            && (r.Ok? && !r.value.FullyRefunded? ==> !Covered(Waited(l).0.world, payment, amount))
  {
    var (at, turn) := Waited(l);
    WaitedSound(l);
    assert PaymentSound(at.world, payment);
    GivenSplits(RefundsOf(at.world, payment));
    var decision := Decide(RefundsOf(at.world, payment), amount);
    if turn.reply == Answered && decision.Make? {
      hide Sound, Follows, Creating;
      CreatingGives(at, payment, purpose, amount);
      FollowsOn(l.world, at.world, Refunding(l, purpose, payment, amount).0.world);
    }
  }

  lemma GivenBackStill(a: World, b: World, asked: Asked)
    requires Follows(a, b) && GivenBack(a, asked)
    ensures GivenBack(b, asked)
  {
    GivenGrows(RefundsOf(a, asked.payment), RefundsOf(b, asked.payment));
  }

  /** What each state of a run's says of its payment. */
  ghost predicate Told(w: World, asked: seq<Asked>, states: seq<RefundState>) {
    |states| == |asked| && forall k :: 0 <= k < |asked| && states[k].FullyRefunded? ==> GivenBack(w, asked[k])
  }

  lemma ToldMore(a: World, b: World, asked: seq<Asked>, states: seq<RefundState>, more: seq<Asked>,
      moreStates: seq<RefundState>)
    requires Follows(a, b) && Told(a, asked, states) && Told(b, more, moreStates)
    ensures Told(b, asked + more, states + moreStates)
  {
    hide Follows, GivenBack;
    forall k | 0 <= k < |asked| && states[k].FullyRefunded? ensures GivenBack(b, asked[k]) {
      GivenBackStill(a, b, asked[k]);
    }
  }

  lemma {:induction false} InvoiceGives(l: Line, purpose: string, invoice: Invoice, n: nat)
    requires Sound(l.world) && AmountsAgree(l.world, invoice) && n <= |invoice.payments|
    ensures var done := InvoiceRun(l, purpose, invoice, n);
            && Sound(done.line.world) && Follows(l.world, done.line.world)
            && (done.error.None? ==> Told(done.line.world, AskedOf(invoice, n), done.states))
    decreases n
  {
    hide Sound, Refunding, Waited;
    if n == 0 {
      WaitedSound(l);
    } else {
      InvoiceGives(l, purpose, invoice, n - 1);
      var before := InvoiceRun(l, purpose, invoice, n - 1);
      var paid := Refundable(invoice.payments[n - 1]);
      if before.error.None? && paid.Some? {
        var amount := Amount(invoice.payments[n - 1]);
        assert amount == AmountOf(l.world, paid.value) == AmountOf(before.line.world, paid.value);
        hide GivenBack;
        RefundingGives(before.line, purpose, paid.value, amount);
        var (end, state) := Refunding(before.line, purpose, paid.value, amount);
        FollowsOn(l.world, before.line.world, end.world);
        if state.Ok? {
          OneTold(end.world, Asked(invoice.id, paid.value, amount), state.value);
          ToldMore(before.line.world, end.world, AskedOf(invoice, n - 1), before.states,
                   [Asked(invoice.id, paid.value, amount)], [state.value]);
        }
      } else {
        assert before.error.None? ==> AskedOf(invoice, n) == AskedOf(invoice, n - 1);
      }
    }
  }

  lemma OneTold(w: World, asked: Asked, state: RefundState)
    requires state.FullyRefunded? ==> Given(RefundsOf(w, asked.payment)) >= asked.amount
    ensures Told(w, [asked], [state])
  {
  }

  lemma AgreeStill(a: World, b: World, invoices: seq<Invoice>)
    requires Follows(a, b) && AllAgree(a, invoices)
    ensures AllAgree(b, invoices)
  {
    forall i | 0 <= i < |invoices| ensures AmountsAgree(b, invoices[i]) {
      assert AmountsAgree(a, invoices[i]);
    }
  }

  lemma {:induction false} InvoicesGive(l: Line, purpose: string, more: bool, invoices: seq<Invoice>)
    requires Sound(l.world) && AllAgree(l.world, invoices)
    ensures var done := InvoicesRun(l, purpose, more, invoices);
            && Sound(done.line.world) && Follows(l.world, done.line.world)
            && (done.error.None? ==> Told(done.line.world, AllAsked(invoices), done.states))
    decreases |invoices|
  {
    hide Sound, InvoiceRun, Waited, AskedOf, Follows;
    if invoices == [] {
      WaitedSound(l);
    } else {
      var some, last := invoices[..|invoices| - 1], invoices[|invoices| - 1];
      InvoicesGive(l, purpose, more, some);
      var before := InvoicesRun(l, purpose, more, some);
      if before.error.None? {
        AgreeStill(l.world, before.line.world, invoices);
        assert AmountsAgree(before.line.world, last);
        hide AmountsAgree;
        InvoiceGives(before.line, purpose, last, |last.payments|);
        var one := InvoiceRun(before.line, purpose, last, |last.payments|);
        FollowsOn(l.world, before.line.world, one.line.world);
        if one.error.None? {
          ToldMore(before.line.world, one.line.world, AllAsked(some), before.states, AskedOf(last, |last.payments|),
              one.states);
        }
      }
    }
  }

  lemma {:induction false} NoShortfall(invoices: seq<Invoice>)
    requires Shortfalls(invoices) == []
    ensures forall i :: 0 <= i < |invoices| ==> Collected(invoices[i].payments) >= invoices[i].amountDue
  {
    if invoices != [] { NoShortfall(invoices[..|invoices| - 1]); }
  }

  lemma {:induction false} AskedHolds(invoice: Invoice, n: nat, j: nat)
    requires j < n <= |invoice.payments| && Refundable(invoice.payments[j]).Some?
    ensures Asked(invoice.id, Refundable(invoice.payments[j]).value, Amount(invoice.payments[j])) in AskedOf(invoice, n)
  {
    if j < n - 1 { AskedHolds(invoice, n - 1, j); }
  }

  lemma {:induction false} AllAskedHolds(invoices: seq<Invoice>, i: nat, asked: Asked)
    requires i < |invoices| && asked in AskedOf(invoices[i], |invoices[i].payments|)
    ensures asked in AllAsked(invoices)
    decreases |invoices|
  {
    if i < |invoices| - 1 { AllAskedHolds(invoices[..|invoices| - 1], i, asked); }
  }

  lemma {:induction false} NoNames(asked: seq<Asked>, states: seq<RefundState>, state: RefundState)
    requires |states| == |asked| && Names(asked, states, state) == []
    ensures state !in states
  {
    if asked != [] {
      var last := |asked| - 1;
      NoNames(asked[..last], states[..last], state);
      assert states == states[..last] + [states[last]];
    }
  }

  /** Every payment Stripe took of it given back in full, and nothing of it taken elsewhere. */
  ghost predicate InvoiceGivenBack(w: World, invoice: Invoice) {
    && Collected(invoice.payments) >= invoice.amountDue
    && forall j :: 0 <= j < |invoice.payments| && Refundable(invoice.payments[j]).Some? ==>
         GivenBack(w, Asked(invoice.id, Refundable(invoice.payments[j]).value, Amount(invoice.payments[j])))
  }

  /** With nothing left unsettled, every payment of every invoice was given back in full. */
  lemma {:induction false} NoneLeft(w: World, invoices: seq<Invoice>, states: seq<RefundState>)
    requires Told(w, AllAsked(invoices), states) && Remains(invoices, states).None?
    ensures forall i :: 0 <= i < |invoices| ==> InvoiceGivenBack(w, invoices[i])
  {
    var all := AllAsked(invoices);
    NoShortfall(invoices);
    NoNames(all, states, AwaitsCustomer);
    NoNames(all, states, AwaitsStripe);
    hide GivenBack, Collected, Shortfalls, Names, AllAsked, AskedOf;
    forall i, j | 0 <= i < |invoices| && 0 <= j < |invoices[i].payments| && Refundable(invoices[i].payments[j]).Some?
      ensures GivenBack(w, Asked(invoices[i].id, Refundable(invoices[i].payments[j]).value,
              Amount(invoices[i].payments[j])))
    {
      var one := Asked(invoices[i].id, Refundable(invoices[i].payments[j]).value, Amount(invoices[i].payments[j]));
      AskedHolds(invoices[i], |invoices[i].payments|, j);
      AllAskedHolds(invoices, i, one);
      var k :| 0 <= k < |all| && all[k] == one;
      assert states[k] in states;
      assert states[k] != AwaitsCustomer && states[k] != AwaitsStripe;
      assert states[k] == FullyRefunded;
    }
    forall i | 0 <= i < |invoices| ensures InvoiceGivenBack(w, invoices[i]) {
    }
  }

  // --- What the stamp means ---------------------------------------------------------------------------

  /**
   * Whatever passes of any purpose, hands and Stripe do meanwhile, and however requests fail: a withdrawal
   * is stamped by an attempt only with its subscription ended, every paid invoice taken by Stripe in full,
   * and each payment given back in full.
   */
  lemma StampedGivenBack(l: Line, row: Withdrawal, purpose: string, more: bool, invoices: seq<Invoice>, now: int)
    requires Sound(l.world) && AllAgree(l.world, invoices)
    ensures var (end, next, failed) := Settling(l, row, purpose, more, invoices, now);
            && Sound(end.world) && Follows(l.world, end.world)
            && (row.settledAt.Some? ==> next == row && end == l)
            && (row.settledAt.None? && next.settledAt.Some? ==>
                  next.ended && failed.None? && forall i :: 0 <= i < |invoices| ==>
                      InvoiceGivenBack(end.world, invoices[i]))
  {
    hide Sound, Follows, Waited, InvoicesRun, Remains, InvoiceGivenBack;
    FollowsItself(l.world);
    if row.settledAt.None? {
      WaitedSound(l);
      var (at, turn) := Waited(l);
      if turn.reply == Answered {
        AgreeStill(l.world, at.world, invoices);
        hide AllAgree;
        InvoicesGive(at, purpose, more, invoices);
        var done := InvoicesRun(at, purpose, more, invoices);
        FollowsOn(l.world, at.world, done.line.world);
        if done.error.None? && Remains(invoices, done.states).None? {
          NoneLeft(done.line.world, invoices, done.states);
        }
      }
    }
  }

  /**
   * A payment given back in full, covered by refunds that stand exactly when no more of them came back than
   * they gave beyond its amount: always while none that succeeded has failed, and, where they gave no more
   * than the amount, only then.
   */
  predicate StandsExactly(w: World, payment: string, amount: nat) {
    var refunds := RefundsOf(w, payment);
    && Given(refunds) >= amount
    && (Covered(w, payment, amount) <==> Returned(refunds) <= Given(refunds) - amount)
    && (Returned(refunds) == 0 ==> Covered(w, payment, amount))
    && (Given(refunds) == amount ==> (Covered(w, payment, amount) <==> Returned(refunds) == 0))
  }

  lemma CoveredExactly(w: World, asked: Asked)
    requires Sound(w) && GivenBack(w, asked)
    ensures StandsExactly(w, asked.payment, asked.amount)
  {
    assert PaymentSound(w, asked.payment);
    GivenSplits(RefundsOf(w, asked.payment));
  }

  /** At the answer that a payment is refunded. */
  lemma RefundedExactly(l: Line, purpose: string, payment: string, amount: nat)
    requires Sound(l.world) && amount == AmountOf(l.world, payment)
    ensures var (end, r) := Refunding(l, purpose, payment, amount);
            r == Ok(FullyRefunded) ==> StandsExactly(end.world, payment, amount)
  {
    hide Sound, Refunding, StandsExactly;
    RefundingGives(l, purpose, payment, amount);
    var (end, r) := Refunding(l, purpose, payment, amount);
    if r == Ok(FullyRefunded) {
      CoveredExactly(end.world, Asked("", payment, amount));
    }
  }

  /** And at the stamp, of every payment of every paid invoice. */
  lemma StampedExactly(l: Line, row: Withdrawal, purpose: string, more: bool, invoices: seq<Invoice>, now: int)
    requires Sound(l.world) && AllAgree(l.world, invoices)
    ensures var (end, next, _) := Settling(l, row, purpose, more, invoices, now);
            row.settledAt.None? && next.settledAt.Some? ==>
              forall i, j ::
                && 0 <= i < |invoices| && 0 <= j < |invoices[i].payments|
                && Refundable(invoices[i].payments[j]).Some? ==>
                StandsExactly(end.world, Refundable(invoices[i].payments[j]).value, Amount(invoices[i].payments[j]))
  {
    hide Sound, Settling, StandsExactly, Follows, Collected, AllAgree;
    StampedGivenBack(l, row, purpose, more, invoices, now);
    var (end, next, _) := Settling(l, row, purpose, more, invoices, now);
    if row.settledAt.None? && next.settledAt.Some? {
      forall i, j | 0 <= i < |invoices| && 0 <= j < |invoices[i].payments| && Refundable(invoices[i].payments[j]).Some?
        ensures StandsExactly(end.world, Refundable(invoices[i].payments[j]).value, Amount(invoices[i].payments[j]))
      {
        assert InvoiceGivenBack(end.world, invoices[i]);
        CoveredExactly(end.world,
            Asked(invoices[i].id, Refundable(invoices[i].payments[j]).value, Amount(invoices[i].payments[j])));
      }
    }
  }

  /** Nothing came back exactly when each refund that succeeded, of any amount, still does. */
  lemma {:induction false} NothingReturned(refunds: seq<Refund>)
    ensures Returned(refunds) == 0 <==>
            forall i :: 0 <= i < |refunds| && Succeeded in refunds[i].had && refunds[i].amount > 0 ==>
                refunds[i].status.Succeeded?
  {
    if refunds != [] { NothingReturned(refunds[..|refunds| - 1]); }
  }

  /** With one purpose and none by hand, the payment is covered exactly when its last refund stands. */
  lemma CoveredByTheLast(w: World, purpose: string, asked: Asked)
    requires Chained(w, purpose) && asked.amount == AmountOf(w, asked.payment) > 0
    ensures var refunds := RefundsOf(w, asked.payment);
            Covered(w, asked.payment, asked.amount) <==> refunds != [] && refunds[|refunds| - 1].status.Succeeded?
  {
    assert Chain(RefundsOf(w, asked.payment), purpose, AmountOf(w, asked.payment));
    ChainTotals(RefundsOf(w, asked.payment), asked.amount);
  }

  // --- Attempts that fail and repeat --------------------------------------------------------------------

  /** One attempt: what Stripe lists for it, and when it runs. */
  datatype Attempt = Attempt(more: bool, invoices: seq<Invoice>, now: int)

  function PaidFor(row: Withdrawal, next: Withdrawal, a: Attempt, paidFor: seq<Invoice>): seq<Invoice> {
    if row.settledAt.None? && next.settledAt.Some? then a.invoices else paidFor
  }

  /** Attempts one after another, the last that stamped kept by the invoices it was for. */
  function Attempts(l: Line, row: Withdrawal, paidFor: seq<Invoice>, purpose: string, attempts: seq<Attempt>)
    : (Line, Withdrawal, seq<Invoice>)
    decreases |attempts|
  {
    if attempts == [] then (l, row, paidFor)
    else
      var a := attempts[0];
      var (at, next, _) := Settling(l, row, purpose, a.more, a.invoices, a.now);
      Attempts(at, next, PaidFor(row, next, a, paidFor), purpose, attempts[1..])
  }

  /** Stamped only with its subscription ended and every payment given back. */
  ghost predicate Honest(w: World, row: Withdrawal, paidFor: seq<Invoice>) {
    row.settledAt.Some? ==> row.ended && forall i :: 0 <= i < |paidFor| ==> InvoiceGivenBack(w, paidFor[i])
  }

  lemma HonestStill(a: World, b: World, row: Withdrawal, paidFor: seq<Invoice>)
    requires Follows(a, b) && Honest(a, row, paidFor)
    ensures Honest(b, row, paidFor)
  {
    hide Collected, Follows, GivenBack;
    if row.settledAt.Some? {
      forall i | 0 <= i < |paidFor| ensures InvoiceGivenBack(b, paidFor[i]) {
        assert InvoiceGivenBack(a, paidFor[i]);
        var payments := paidFor[i].payments;
        forall j | 0 <= j < |payments| && Refundable(payments[j]).Some?
          ensures GivenBack(b, Asked(paidFor[i].id, Refundable(payments[j]).value, Amount(payments[j])))
        {
          GivenBackStill(a, b, Asked(paidFor[i].id, Refundable(payments[j]).value, Amount(payments[j])));
        }
      }
    }
  }

  /**
   * However attempts fail and repeat, with anything between their requests: a stamped withdrawal's
   * subscription has ended, and every payment of the paid invoices it was stamped for was given back in
   * full, each covered exactly as `CoveredExactly` says.
   */
  lemma {:induction false} SettledForGood(l: Line, row: Withdrawal, paidFor: seq<Invoice>, purpose: string,
      attempts: seq<Attempt>)
    requires Sound(l.world) && Honest(l.world, row, paidFor)
    requires forall k :: 0 <= k < |attempts| ==> AllAgree(l.world, attempts[k].invoices)
    ensures var (end, last, for_) := Attempts(l, row, paidFor, purpose, attempts);
            Sound(end.world) && Honest(end.world, last, for_)
    decreases |attempts|
  {
    if attempts != [] {
      hide Sound, Follows, Settling, InvoiceGivenBack;
      var a := attempts[0];
      assert AllAgree(l.world, a.invoices);
      StampedGivenBack(l, row, purpose, a.more, a.invoices, a.now);
      var (at, next, _) := Settling(l, row, purpose, a.more, a.invoices, a.now);
      forall k | 0 <= k < |attempts[1..]| ensures AllAgree(at.world, attempts[1..][k].invoices) {
        AgreeStill(l.world, at.world, attempts[k + 1].invoices);
      }
      HonestStill(l.world, at.world, row, paidFor);
      Unstamped(l, row, purpose, a);
      SettledForGood(at, next, PaidFor(row, next, a, paidFor), purpose, attempts[1..]);
    }
  }

  /** An attempt leaves a settled row alone, and otherwise either stamps it or not. */
  lemma Unstamped(l: Line, row: Withdrawal, purpose: string, a: Attempt)
    ensures row.settledAt.Some? ==> Settling(l, row, purpose, a.more, a.invoices, a.now).1 == row
  {
  }

  // --- A stamp over a refund that failed ----------------------------------------------------------------

  const Quiet := Exchange([], Answered, Pending)

  /** Between a pass's list and its create another makes the refund, which succeeds and then fails. */
  function Overtaken(purpose: string): Exchange {
    Exchange([List("p", purpose), Create(0, Succeeded), Turn("p", 0, Failed)], Answered, Pending)
  }

  function PaidInFull(amount: nat): Invoice {
    Invoice("i", amount, [InvoicePayment(ByIntent(Some("p")), Some(amount))], false)
  }

  /**
   * From the empty world, a withdrawal stamped with nothing of its payment given back as it stands: its
   * create is answered as its key's refund first was, `succeeded`, though that has failed since.
   */
  lemma StampedUncovered(amount: nat, purpose: string)
    requires amount > 0
    ensures var l := Line(World(map["p" := amount], map[], []), [Quiet, Quiet, Quiet, Quiet, Overtaken(purpose)]);
            var (end, row, failed) := Settling(l, Withdrawal(false, None), purpose, false, [PaidInFull(amount)], 0);
            && Sound(l.world) && AllAgree(l.world, [PaidInFull(amount)])
            && failed.None? && row == Withdrawal(true, Some(0))
            && !Covered(end.world, "p", amount) && SucceededTotal(RefundsOf(end.world, "p")) == 0
  {
    hide *;
    var w := World(map["p" := amount], map[], []);
    var coming := [Quiet, Quiet, Quiet, Quiet, Overtaken(purpose)];
    NothingSound(w.amounts);
    Agrees(w, amount);
    var end := EndsOvertaken(w, purpose, amount);
    InvoicesOvertaken(w, purpose, amount, end);
    NothingRemains(amount);
    QuietWait(w, coming);
    assert coming[1..] == [Quiet, Quiet, Quiet, Overtaken(purpose)];
    Uncovered(end, amount);
    SettlingThrough(Line(w, coming), Line(w, coming[1..]), Line(end, []), purpose, [PaidInFull(amount)]);
  }

  lemma Agrees(w: World, amount: nat)
    requires w == World(map["p" := amount], map[], [])
    ensures AllAgree(w, [PaidInFull(amount)]) && RefundsOf(w, "p") == []
  {
  }

  lemma SettlingThrough(l: Line, at: Line, end: Line, purpose: string, invoices: seq<Invoice>)
    requires Waited(l) == (at, Quiet) && |AllAsked(invoices)| == 1 && Remains(invoices, [FullyRefunded]) == None
    requires InvoicesRun(at, purpose, false, invoices) == Progress(end, None, [FullyRefunded])
    ensures Settling(l, Withdrawal(false, None), purpose, false, invoices, 0) == (end, Withdrawal(true, Some(0)), None)
  {
    hide Waited, InvoicesRun, Remains, AllAsked;
  }

  lemma Uncovered(end: World, amount: nat)
    requires amount > 0 && |RefundsOf(end, "p")| == 1 && RefundsOf(end, "p")[0].status == Failed
    ensures !Covered(end, "p", amount) && SucceededTotal(RefundsOf(end, "p")) == 0
  {
  }

  lemma QuietWait(w: World, coming: seq<Exchange>)
    requires coming != [] && coming[0] == Quiet
    ensures Waited(Line(w, coming)) == (Line(w, coming[1..]), Quiet)
  {
    assert Run(w, []) == w;
  }

  lemma EndsOvertaken(w: World, purpose: string, amount: nat) returns (end: World)
    requires w == World(map["p" := amount], map[], []) && amount > 0
    ensures end == Run(w, Overtaken(purpose).others)
    ensures RefundsOf(end, "p") == [Refund(Some(Key(purpose, 0)), amount, Failed, Succeeded, {Succeeded, Failed})]
  {
    var steps := Overtaken(purpose).others;
    var r := NewRefund(Some(Key(purpose, 0)), amount, Succeeded);
    var listed := w.(passes := [Pass(purpose, "p", [])]);
    assert Next(w, steps[0]) == listed;
    assert Decide([], amount) == Make(amount, 0);
    var made := Next(listed, steps[1]);
    assert RefundsOf(made, "p") == [r];
    end := Next(made, steps[2]);
    hide Decide, Keyed;
    OneMore(w, steps, 0, listed);
    OneMore(listed, steps, 1, made);
    OneMore(made, steps, 2, end);
    assert steps[0..] == steps && steps[3..] == [] && Run(end, []) == end;
    assert {Succeeded} + {Failed} == {Succeeded, Failed};
  }

  lemma RefundingOvertaken(w: World, purpose: string, amount: nat, end: World)
    requires RefundsOf(w, "p") == [] && amount > 0 && end == Run(w, Overtaken(purpose).others)
    requires RefundsOf(end, "p") == [Refund(Some(Key(purpose, 0)), amount, Failed, Succeeded, {Succeeded, Failed})]
    ensures Refunding(Line(w, [Quiet, Overtaken(purpose)]), purpose, "p", amount) == (Line(end, []), Ok(FullyRefunded))
  {
    hide Run;
    assert Decide([], amount) == Make(amount, 0);
    var coming := [Quiet, Overtaken(purpose)];
    QuietWait(w, coming);
    assert coming[1..] == [Overtaken(purpose)] && [Overtaken(purpose)][1..] == [];
    assert Keyed(RefundsOf(end, "p"), Key(purpose, 0)) == Some(0);
  }

  lemma InvoicesOvertaken(w: World, purpose: string, amount: nat, end: World)
    requires RefundsOf(w, "p") == [] && amount > 0 && end == Run(w, Overtaken(purpose).others)
    requires RefundsOf(end, "p") == [Refund(Some(Key(purpose, 0)), amount, Failed, Succeeded, {Succeeded, Failed})]
    ensures InvoicesRun(Line(w, [Quiet, Quiet, Quiet, Overtaken(purpose)]), purpose, false, [PaidInFull(amount)])
            == Progress(Line(end, []), None, [FullyRefunded])
  {
    hide Run, Refunding, Waited;
    var l3, l2, l1 := [Quiet, Quiet, Quiet, Overtaken(purpose)], [Quiet, Quiet, Overtaken(purpose)],
        [Quiet, Overtaken(purpose)];
    assert l3[1..] == l2 && l2[1..] == l1;
    QuietWait(w, l3);
    QuietWait(w, l2);
    RefundingOvertaken(w, purpose, amount, end);
    var invoice := PaidInFull(amount);
    assert InvoiceRun(Line(w, l2), purpose, invoice, 0) == Progress(Line(w, l1), None, []);
    assert InvoiceRun(Line(w, l2), purpose, invoice, 1) == Progress(Line(end, []), None, [FullyRefunded]);
    FirstPage(Line(w, l3), purpose, false);
    assert [invoice][..0] == [];
    assert [] + [FullyRefunded] == [FullyRefunded];
  }

  lemma NothingRemains(amount: nat)
    ensures |AllAsked([PaidInFull(amount)])| == 1 && Remains([PaidInFull(amount)], [FullyRefunded]) == None
  {
    var invoice := PaidInFull(amount);
    var payments := invoice.payments;
    assert payments[..0] == [] && [invoice][..0] == [];
    assert Collected([]) == 0 && Collected(payments) == amount;
    assert Shortfalls([]) == [] && Shortfalls([invoice]) == [];
    assert AskedOf(invoice, 0) == [] && AskedOf(invoice, 1) == [Asked("i", "p", amount)];
    assert AllAsked([]) == [] && AllAsked([invoice]) == [Asked("i", "p", amount)];
    NamesOne([], [], Asked("i", "p", amount), FullyRefunded);
    assert [] + [Asked("i", "p", amount)] == [Asked("i", "p", amount)] && [] + [FullyRefunded] == [FullyRefunded];
  }
}
