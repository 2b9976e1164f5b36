/**
 * Settling a withdrawal: its subscription ended, then every payment of its paid invoices refunded, one
 * request to Stripe after another while other passes, hands and Stripe itself move, any request failing.
 * The class makes the requests; functions say what comes of them; and the stamp is proved to mean that
 * every payment was given back in full, with exactly when that still stands.
 */
module Settlement {
  import opened Wrappers
  import opened Refunds

  /** Whether a request was answered, or failed without or with its effect. */
  datatype Reply = Answered | Refused | Lost

  /** What others do before a request takes effect, how it goes, and the status a refund it makes starts with. */
  datatype Exchange = Exchange(others: seq<Step>, reply: Reply, first: Status)

  /** Stripe as a pass will find it. */
  datatype Line = Line(world: World, coming: seq<Exchange>)

  datatype Method = ByIntent(intent: Option<string>) | ByCharge(charge: Option<string>) | ByRecord

  datatype InvoicePayment = InvoicePayment(paidBy: Method, amountPaid: Option<nat>)

  datatype Invoice = Invoice(id: string, amountDue: nat, payments: seq<InvoicePayment>, morePayments: bool)

  datatype RefundState = FullyRefunded | AwaitsStripe | AwaitsCustomer

  /** A payment's name: its invoice's and its own. */
  type Name = (string, string)

  datatype Error =
    | StripeFailed
    | MoreThanAPage
    | Unsettled(byHand: seq<(string, nat)>, action: seq<Name>, waiting: seq<Name>)

  /** What Stripe can refund of a payment, none of one it did not take. */
  function Refundable(payment: InvoicePayment): Option<string> {
    match payment.paidBy
    case ByIntent(intent) => intent
    case ByCharge(charge) => charge
    case ByRecord => None
  }

  function Amount(payment: InvoicePayment): nat {
    if payment.amountPaid.Some? then payment.amountPaid.value else 0
  }

  /** What Stripe took itself of the payments. */
  function Collected(payments: seq<InvoicePayment>): nat {
    if payments == [] then 0
    else
      var last := payments[|payments| - 1];
      Collected(payments[..|payments| - 1]) + if Refundable(last).Some? then Amount(last) else 0
  }

  function Filter(invoices: seq<Invoice>, covers: Invoice -> bool): seq<Invoice> {
    if invoices == [] then []
    else
      var last := invoices[|invoices| - 1];
      Filter(invoices[..|invoices| - 1], covers) + if covers(last) then [last] else []
  }

  /** Each invoice Stripe did not take in full, and what it did not take. */
  function Shortfalls(invoices: seq<Invoice>): seq<(string, nat)> {
    if invoices == [] then []
    else
      var last := invoices[|invoices| - 1];
      Shortfalls(invoices[..|invoices| - 1])
      + if Collected(last.payments) < last.amountDue then [(last.id, last.amountDue - Collected(last.payments))] else []
  }

  /** A payment a pass asks Stripe to refund. */
  datatype Asked = Asked(invoice: string, payment: string, amount: nat)

  /** Those among an invoice's first `n` payments. */
  function AskedOf(invoice: Invoice, n: nat): seq<Asked>
    requires n <= |invoice.payments|
  {
    if n == 0 then []
    else
      var last := invoice.payments[n - 1];
      AskedOf(invoice, n - 1)
      + if Refundable(last).Some? then [Asked(invoice.id, Refundable(last).value, Amount(last))] else []
  }

  function AllAsked(invoices: seq<Invoice>): seq<Asked> {
    if invoices == [] then []
    else
      var last := invoices[|invoices| - 1];
      AllAsked(invoices[..|invoices| - 1]) + AskedOf(last, |last.payments|)
  }

  /** The payments that were found in `state`, with their invoices. */
  function Names(asked: seq<Asked>, states: seq<RefundState>, state: RefundState): seq<Name>
    requires |states| == |asked|
  {
    if asked == [] then []
    else
      var last := |asked| - 1;
      Names(asked[..last], states[..last], state)
      + if states[last] == state then [(asked[last].invoice, asked[last].payment)] else []
  }

  // --- What a pass makes of Stripe --------------------------------------------------------------------

  /** Others' steps until a request takes effect. */
  function Waited(l: Line): (Line, Exchange) {
    if l.coming == [] then (l, Exchange([], Answered, Pending))
    else (Line(Run(l.world, l.coming[0].others), l.coming[1..]), l.coming[0])
  }

  function StateOf(status: Status): RefundState {
    if status.Succeeded? then FullyRefunded else if status.RequiresAction? then AwaitsCustomer else AwaitsStripe
  }

  function Creating(l: Line, payment: string, key: Key, amount: nat): (Line, Result<RefundState, Error>) {
    var (at, turn) := Waited(l);
    if turn.reply == Refused then (at, Err(StripeFailed))
    else
      var after := at.(world := Created(at.world, payment, key, amount, turn.first));
      (after, if turn.reply == Lost then Err(StripeFailed) else Ok(StateOf(Answer(at.world, payment, key, turn.first))))
  }

  /** One payment's refund: its refunds listed, and what they leave created. */
  function Refunding(l: Line, purpose: string, payment: string, amount: nat): (Line, Result<RefundState, Error>) {
    var (at, turn) := Waited(l);
    if turn.reply != Answered then (at, Err(StripeFailed))
    else
      match Decide(RefundsOf(at.world, payment), amount)
      case TooMany => (at, Err(MoreThanAPage))
      case Refunded => (at, Ok(FullyRefunded))
      case Action => (at, Ok(AwaitsCustomer))
      case Waiting => (at, Ok(AwaitsStripe))
      case Make(rest, count) => Creating(at, payment, Key(purpose, count), rest)
  }

  /** How far a pass has come: what Stripe has become, the error that stopped it, each payment's state. */
  datatype Progress = Progress(line: Line, error: Option<Error>, states: seq<RefundState>)

  /** A page of what Stripe lists. */
  function Page(l: Line, more: bool): Progress {
    var (at, turn) := Waited(l);
    Progress(at, if turn.reply != Answered then Some(StripeFailed) else if more then Some(MoreThanAPage) else None, [])
  }

  /** The first `n` payments of an invoice. */
  function InvoiceRun(l: Line, purpose: string, invoice: Invoice, n: nat): (r: Progress)
    requires n <= |invoice.payments|
    ensures r.error.None? ==> |r.states| == |AskedOf(invoice, n)|
  {
    if n == 0 then Page(l, invoice.morePayments)
    else
      var before := InvoiceRun(l, purpose, invoice, n - 1);
      var paid := Refundable(invoice.payments[n - 1]);
      if before.error.Some? || paid.None? then before
      else
        var (at, state) := Refunding(before.line, purpose, paid.value, Amount(invoice.payments[n - 1]));
        if state.Err? then Progress(at, Some(state.error), before.states)
        else Progress(at, None, before.states + [state.value])
  }

  function InvoicesRun(l: Line, purpose: string, more: bool, invoices: seq<Invoice>): (r: Progress)
    ensures r.error.None? ==> |r.states| == |AllAsked(invoices)|
  {
    if invoices == [] then Page(l, more)
    else
      var before := InvoicesRun(l, purpose, more, invoices[..|invoices| - 1]);
      if before.error.Some? then before
      else
        var last := invoices[|invoices| - 1];
        var one := InvoiceRun(before.line, purpose, last, |last.payments|);
        Progress(one.line, one.error, before.states + one.states)
  }

  /** What is left unsettled once each payment has been asked about, if anything. */
  function Remains(invoices: seq<Invoice>, states: seq<RefundState>): Option<Error>
    requires |states| == |AllAsked(invoices)|
  {
    var asked := AllAsked(invoices);
    var left := Unsettled(Shortfalls(invoices), Names(asked, states, AwaitsCustomer),
        Names(asked, states, AwaitsStripe));
    if left == Unsettled([], [], []) then None else Some(left)
  }

  function RefundedInvoices(l: Line, purpose: string, more: bool, invoices: seq<Invoice>): (Line, Option<Error>) {
    var done := InvoicesRun(l, purpose, more, invoices);
    (done.line, if done.error.Some? then done.error else Remains(invoices, done.states))
  }

  /** A withdrawal's row, and whether its subscription has ended. */
  datatype Withdrawal = Withdrawal(ended: bool, settledAt: Option<int>)

  function Settling(l: Line, row: Withdrawal, purpose: string, more: bool, invoices: seq<Invoice>, now: int)
    : (Line, Withdrawal, Option<Error>)
  {
    if row.settledAt.Some? then (l, row, None)
    else
      var (at, turn) := Waited(l);
      var next := row.(ended := row.ended || turn.reply != Refused);
      if turn.reply != Answered then (at, next, Some(StripeFailed))
      else
        var (end, failed) := RefundedInvoices(at, purpose, more, invoices);
        (end, if failed.None? then next.(settledAt := Some(now)) else next, failed)
  }

  // --- Stripe, and one pass over it -------------------------------------------------------------------

  class Account {
    var world: World
    var coming: seq<Exchange>
    var ended: bool
    var settledAt: Option<int>
    const purpose: string

    ghost function Stripe(): Line
      reads this
    {
      Line(world, coming)
    }

    ghost function Row(): Withdrawal
      reads this
    {
      Withdrawal(ended, settledAt)
    }

    constructor (amounts: map<string, nat>, coming: seq<Exchange>, purpose: string)
      ensures Stripe() == Line(World(amounts, map[], []), coming) && Row() == Withdrawal(false, None)
      ensures this.purpose == purpose
    {
      this.world := World(amounts, map[], []);
      this.coming := coming;
      this.ended := false;
      this.settledAt := None;
      this.purpose := purpose;
    }

    method Await() returns (turn: Exchange)
      modifies this`world, this`coming
      ensures (Stripe(), turn) == Waited(old(Stripe()))
    {
      if coming == [] {
        return Exchange([], Answered, Pending);
      }
      turn := coming[0];
      coming := coming[1..];
      var k := 0;
      assert turn.others[0..] == turn.others;
      while k < |turn.others|
        invariant 0 <= k <= |turn.others| && coming == old(coming)[1..]
        invariant Run(world, turn.others[k..]) == Run(old(world), turn.others)
      {
        assert turn.others[k..][0] == turn.others[k] && turn.others[k..][1..] == turn.others[k + 1..];
        if CanStep(world, turn.others[k]) {
          world := Next(world, turn.others[k]);
        }
        k := k + 1;
      }
    }

    method CreateRefund(payment: string, key: Key, amount: nat) returns (r: Result<RefundState, Error>)
      modifies this`world, this`coming
      ensures (Stripe(), r) == Creating(old(Stripe()), payment, key, amount)
    {
      hide Run, Keyed;
      var turn := Await();
      if turn.reply == Refused {
        return Err(StripeFailed);
      }
      var status := Answer(world, payment, key, turn.first);
      world := Created(world, payment, key, amount, turn.first);
      if turn.reply == Lost {
        return Err(StripeFailed);
      }
      if status == Succeeded {
        return Ok(FullyRefunded);
      }
      return Ok(if status == RequiresAction then AwaitsCustomer else AwaitsStripe);
    }

    /** One payment's refund, decided from the refunds Stripe holds for it. */
    method RefundInFull(payment: string, amount: nat) returns (r: Result<RefundState, Error>)
      modifies this`world, this`coming
      ensures (Stripe(), r) == Refunding(old(Stripe()), purpose, payment, amount)
    {
      hide Run, Creating;
      var turn := Await();
      if turn.reply != Answered {
        return Err(StripeFailed);
      }
      var refunds := RefundsOf(world, payment);
      if |refunds| > PAGE {
        return Err(MoreThanAPage);
      }
      var succeeded := SucceededTotal(refunds);
      if succeeded >= amount {
        return Ok(FullyRefunded);
      }
      if Has(refunds, RequiresAction) {
        return Ok(AwaitsCustomer);
      }
      if Has(refunds, Pending) {
        return Ok(AwaitsStripe);
      }
      r := CreateRefund(payment, Key(purpose, OverCount(refunds)), amount - succeeded);
    }

    /** One invoice's payments, each asked to be refunded in full; what Stripe took of it. */
    method RefundInvoice(invoice: Invoice) returns (r: Result<nat, Error>, action: seq<Name>, waiting: seq<Name>)
      modifies this`world, this`coming
      ensures var done := InvoiceRun(old(Stripe()), purpose, invoice, |invoice.payments|);
              && Stripe() == done.line
              && r == (if done.error.Some? then Err(done.error.value) else Ok(Collected(invoice.payments)))
              && (done.error.None? ==>
                    && action == Names(AskedOf(invoice, |invoice.payments|), done.states, AwaitsCustomer)
                    && waiting == Names(AskedOf(invoice, |invoice.payments|), done.states, AwaitsStripe))
    {
      hide Waited, Refunding, Names, Collected;
      action, waiting := [], [];
      var turn := Await();
      if turn.reply != Answered || invoice.morePayments {
        ghost var first := InvoiceRun(old(Stripe()), purpose, invoice, 0);
        Stopped(old(Stripe()), purpose, invoice, 0, |invoice.payments|);
        return Err(if turn.reply != Answered then StripeFailed else MoreThanAPage), action, waiting;
      }
      var collected := 0;
      var j := 0;
      NothingAsked(invoice);
      while j < |invoice.payments|
        invariant 0 <= j <= |invoice.payments| && collected == Collected(invoice.payments[..j])
        invariant var done := InvoiceRun(old(Stripe()), purpose, invoice, j);
                  && Stripe() == done.line && done.error.None?
                  && action == Names(AskedOf(invoice, j), done.states, AwaitsCustomer)
                  && waiting == Names(AskedOf(invoice, j), done.states, AwaitsStripe)
      {
        var payment := invoice.payments[j];
        var paid := Refundable(payment);
        CollectedOne(invoice.payments, j);
        ghost var states := InvoiceRun(old(Stripe()), purpose, invoice, j).states;
        if paid.Some? {
          var state := RefundInFull(paid.value, Amount(payment));
          if state.Err? {
            Stopped(old(Stripe()), purpose, invoice, j + 1, |invoice.payments|);
            return Err(state.error), action, waiting;
          }
          var name := (invoice.id, paid.value);
          NamesOne(AskedOf(invoice, j), states, Asked(invoice.id, paid.value, Amount(payment)), state.value);
          assert action + [] == action && waiting + [] == waiting;
          if state.value == AwaitsCustomer {
            action := action + [name];
          } else if state.value == AwaitsStripe {
            waiting := waiting + [name];
          }
          collected := collected + Amount(payment);
        } else {
          assert AskedOf(invoice, j) + [] == AskedOf(invoice, j);
        }
        j := j + 1;
      }
      assert invoice.payments[..j] == invoice.payments;
      return Ok(collected), action, waiting;
    }

    /** Every payment of the covered invoices, and an error that names exactly what is not settled of them. */
    method RefundPaidInvoices(invoices: seq<Invoice>, more: bool, covers: Invoice -> bool)
        returns (failed: Option<Error>)
      modifies this`world, this`coming
      ensures (Stripe(), failed) == RefundedInvoices(old(Stripe()), purpose, more, Filter(invoices, covers))
    {
      hide Waited, InvoicesRun, InvoiceRun, Names, Collected, Shortfalls, AllAsked, AskedOf, Filter;
      var turn := Await();
      FirstPage(old(Stripe()), purpose, more);
      ghost var all := Filter(invoices, covers);
      if turn.reply != Answered || more {
        AllStopped(old(Stripe()), purpose, more, [], all);
        return Some(if turn.reply != Answered then StripeFailed else MoreThanAPage);
      }
      var byHand: seq<(string, nat)>, action: seq<Name>, waiting: seq<Name> := [], [], [];
      var i := 0;
      NothingCovered(covers);
      assert invoices[..0] == [];
      while i < |invoices|
        invariant 0 <= i <= |invoices|
        invariant var done := InvoicesRun(old(Stripe()), purpose, more, Filter(invoices[..i], covers));
                  && Stripe() == done.line && done.error.None?
                  && byHand == Shortfalls(Filter(invoices[..i], covers))
                  && action == Names(AllAsked(Filter(invoices[..i], covers)), done.states, AwaitsCustomer)
                  && waiting == Names(AllAsked(Filter(invoices[..i], covers)), done.states, AwaitsStripe)
      {
        var invoice := invoices[i];
        FilterOne(invoices, i, covers);
        if covers(invoice) {
          ghost var before := Filter(invoices[..i], covers);
          ghost var was := InvoicesRun(old(Stripe()), purpose, more, before);
          InvoiceAdded(old(Stripe()), purpose, more, before, invoice);
          var collected, moreAction, moreWaiting := RefundInvoice(invoice);
          if collected.Err? {
            FilterPrefix(invoices, i + 1, covers);
            AllStopped(old(Stripe()), purpose, more, before + [invoice], all);
            return Some(collected.error);
          }
          action, waiting := action + moreAction, waiting + moreWaiting;
          if collected.value < invoice.amountDue {
            byHand := byHand + [(invoice.id, invoice.amountDue - collected.value)];
          }
        }
        i := i + 1;
      }
      assert invoices[..i] == invoices;
      if byHand != [] || action != [] || waiting != [] {
        return Some(Unsettled(byHand, action, waiting));
      }
      return None;
    }

    /** Settles the withdrawal unless it was, stamping it only once its subscription ended and all is refunded. */
    method SettleWithdrawal(invoices: seq<Invoice>, more: bool, now: int) returns (failed: Option<Error>)
      modifies this`world, this`coming, this`ended, this`settledAt
      ensures (Stripe(), Row(), failed) == Settling(old(Stripe()), old(Row()), purpose, more, invoices, now)
    {
      hide Waited, RefundedInvoices;
      if settledAt.Some? {
        return None;
      }
      var turn := Await();
      ended := ended || turn.reply != Refused;
      if turn.reply != Answered {
        return Some(StripeFailed);
      }
      FilterAll(invoices);
      failed := RefundPaidInvoices(invoices, more, _ => true);
      if failed.None? {
        settledAt := Some(now);
      }
    }
  }

  lemma FirstPage(l: Line, purpose: string, more: bool)
    ensures InvoicesRun(l, purpose, more, []) == Page(l, more)
  {
  }

  lemma NothingAsked(invoice: Invoice)
    ensures Collected(invoice.payments[..0]) == 0 && AskedOf(invoice, 0) == []
    ensures forall state :: Names([], [], state) == []
  {
  }

  lemma NothingCovered(covers: Invoice -> bool)
    ensures Filter([], covers) == [] && Shortfalls([]) == [] && AllAsked([]) == []
    ensures forall state :: Names([], [], state) == []
  {
  }

  lemma CollectedOne(payments: seq<InvoicePayment>, j: nat)
    requires j < |payments|
    ensures Collected(payments[..j + 1]) ==
            Collected(payments[..j]) + if Refundable(payments[j]).Some? then Amount(payments[j]) else 0
  {
    assert payments[..j + 1][..j] == payments[..j];
  }

  /** A run that an error stopped is where it stopped. */
  lemma {:induction false} Stopped(l: Line, purpose: string, invoice: Invoice, n: nat, m: nat)
    requires n <= m <= |invoice.payments| && InvoiceRun(l, purpose, invoice, n).error.Some?
    ensures InvoiceRun(l, purpose, invoice, m) == InvoiceRun(l, purpose, invoice, n)
    decreases m
  {
    hide Refunding, Page;
    if n < m { Stopped(l, purpose, invoice, n, m - 1); }
  }

  lemma {:induction false} AllStopped(l: Line, purpose: string, more: bool, some: seq<Invoice>, all: seq<Invoice>)
    requires some <= all && InvoicesRun(l, purpose, more, some).error.Some?
    ensures InvoicesRun(l, purpose, more, all) == InvoicesRun(l, purpose, more, some)
    decreases |all|
  {
    if |some| < |all| {
      AllStopped(l, purpose, more, some, all[..|all| - 1]);
    } else {
      assert some == all;
    }
  }

  lemma NamesOne(asked: seq<Asked>, states: seq<RefundState>, one: Asked, state: RefundState)
    requires |states| == |asked|
    ensures forall s :: Names(asked + [one], states + [state], s) ==
                        Names(asked, states, s) + if state == s then [(one.invoice, one.payment)] else []
  {
    assert (asked + [one])[..|asked|] == asked && (states + [state])[..|states|] == states;
  }

  lemma {:induction false} NamesMore(asked: seq<Asked>, states: seq<RefundState>, more: seq<Asked>,
      moreStates: seq<RefundState>,
                                     state: RefundState)
    requires |states| == |asked| && |moreStates| == |more|
    ensures Names(asked + more, states + moreStates, state) ==
            Names(asked, states, state) + Names(more, moreStates, state)
    decreases |more|
  {
    if more == [] {
      assert asked + more == asked && states + moreStates == states;
    } else {
      var last := |more| - 1;
      assert (asked + more)[..|asked| + last] == asked + more[..last];
      assert (states + moreStates)[..|asked| + last] == states + moreStates[..last];
      NamesMore(asked, states, more[..last], moreStates[..last], state);
    }
  }

  lemma FilterOne(invoices: seq<Invoice>, i: nat, covers: Invoice -> bool)
    requires i < |invoices|
    ensures Filter(invoices[..i + 1], covers) ==
            if covers(invoices[i]) then Filter(invoices[..i], covers) + [invoices[i]] else Filter(invoices[..i], covers)
  {
    assert invoices[..i + 1][..i] == invoices[..i];
  }

  lemma {:induction false} FilterPrefix(invoices: seq<Invoice>, i: nat, covers: Invoice -> bool)
    requires i <= |invoices|
    ensures Filter(invoices[..i], covers) <= Filter(invoices, covers)
    decreases |invoices|
  {
    if i == |invoices| {
      assert invoices[..i] == invoices;
    } else {
      FilterPrefix(invoices[..|invoices| - 1], i, covers);
      assert invoices[..|invoices| - 1][..i] == invoices[..i];
    }
  }

  lemma {:induction false} FilterAll(invoices: seq<Invoice>)
    ensures Filter(invoices, _ => true) == invoices
  {
    if invoices != [] { FilterAll(invoices[..|invoices| - 1]); }
  }

  /** One more invoice, and what it adds to each list. */
  lemma InvoiceAdded(l: Line, purpose: string, more: bool, before: seq<Invoice>, invoice: Invoice)
    requires InvoicesRun(l, purpose, more, before).error.None?
    ensures var was := InvoicesRun(l, purpose, more, before);
            var one := InvoiceRun(was.line, purpose, invoice, |invoice.payments|);
            && InvoicesRun(l, purpose, more, before + [invoice]) == Progress(one.line, one.error,
                was.states + one.states)
            && AllAsked(before + [invoice]) == AllAsked(before) + AskedOf(invoice, |invoice.payments|)
            && Shortfalls(before + [invoice]) == Shortfalls(before)
               + (if Collected(invoice.payments) < invoice.amountDue
                  then [(invoice.id, invoice.amountDue - Collected(invoice.payments))] else [])
            && (one.error.None? ==> forall s ::
                  Names(AllAsked(before) + AskedOf(invoice, |invoice.payments|), was.states + one.states, s) ==
                  Names(AllAsked(before), was.states, s) + Names(AskedOf(invoice, |invoice.payments|), one.states, s))
  {
    hide Names, InvoiceRun, AskedOf, Collected, Waited;
    assert (before + [invoice])[..|before|] == before;
    var was := InvoicesRun(l, purpose, more, before);
    var one := InvoiceRun(was.line, purpose, invoice, |invoice.payments|);
    if one.error.None? {
      forall s
        ensures Names(AllAsked(before) + AskedOf(invoice, |invoice.payments|), was.states + one.states, s) ==
                Names(AllAsked(before), was.states, s) + Names(AskedOf(invoice, |invoice.payments|), one.states, s)
      {
        NamesMore(AllAsked(before), was.states, AskedOf(invoice, |invoice.payments|), one.states, s);
      }
    }
  }
}
