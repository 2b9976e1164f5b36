/**
 * Refunding a payment in full while any number of passes over it run at once. A pass decides from a list
 * of the payment's refunds, which is stale by the time it creates one; each new refund's idempotency key
 * counts the refunds that failed before it, and Stripe answers a key it has seen with that key's refund.
 * Refunds made by hand, for any amount, and passes for other purposes come between as they like.
 */
module Refunds {
  import opened Wrappers

  datatype Status = Pending | RequiresAction | Succeeded | Failed | Canceled

  datatype Key = Key(purpose: string, count: nat)

  /**
   * A refund, its key none when made by hand; `answer` is the status its create was answered with, and
   * `had` every status it has had.
   */
  datatype Refund = Refund(key: Option<Key>, amount: nat, status: Status, answer: Status, had: set<Status>)

  /** A pass that has listed a payment's refunds and may yet create one. */
  datatype Pass = Pass(purpose: string, payment: string, seen: seq<Refund>)

  datatype World = World(amounts: map<string, nat>, refunds: map<string, seq<Refund>>, passes: seq<Pass>)

  /** `Turn` is Stripe's: a refund settles, fails, even after it succeeded, or asks its customer to act. */
  datatype Step =
    | List(payment: string, purpose: string)
    | Create(pass: nat, first: Status)
    | ByHand(payment: string, amount: nat, first: Status)
    | Turn(payment: string, index: nat, status: Status)

  datatype Decision = Refunded | Action | Waiting | TooMany | Make(amount: nat, count: nat)

  const PAGE := 100

  /** A refund that failed or was canceled stays so. */
  predicate Over(status: Status) {
    status.Failed? || status.Canceled?
  }

  function SucceededTotal(refunds: seq<Refund>): nat {
    if refunds == [] then 0
    else
      var last := refunds[|refunds| - 1];
      SucceededTotal(refunds[..|refunds| - 1]) + if last.status.Succeeded? then last.amount else 0
  }

  /** What refunds have given back at any time, though they may have failed since. */
  function Given(refunds: seq<Refund>): nat {
    if refunds == [] then 0
    else
      var last := refunds[|refunds| - 1];
      Given(refunds[..|refunds| - 1]) + if Succeeded in last.had then last.amount else 0
  }

  /** What came back of it: refunds that succeeded once and no longer do. */
  function Returned(refunds: seq<Refund>): nat {
    if refunds == [] then 0
    else
      var last := refunds[|refunds| - 1];
      Returned(refunds[..|refunds| - 1]) + if Succeeded in last.had && !last.status.Succeeded? then last.amount else 0
  }

  /** What refunds hold back from or gave back to the customer. */
  function LiveTotal(refunds: seq<Refund>): nat {
    if refunds == [] then 0
    else
      var last := refunds[|refunds| - 1];
      LiveTotal(refunds[..|refunds| - 1]) + if Over(last.status) then 0 else last.amount
  }

  function OverCount(refunds: seq<Refund>): (n: nat)
    ensures n <= |refunds|
  {
    if refunds == [] then 0
    else OverCount(refunds[..|refunds| - 1]) + if Over(refunds[|refunds| - 1].status) then 1 else 0
  }

  predicate Has(refunds: seq<Refund>, status: Status) {
    exists i :: 0 <= i < |refunds| && refunds[i].status == status
  }

  /** What a pass makes of the refunds it listed. */
  function Decide(seen: seq<Refund>, amount: nat): Decision {
    if |seen| > PAGE then TooMany
    else if SucceededTotal(seen) >= amount then Refunded
    else if Has(seen, RequiresAction) then Action
    else if Has(seen, Pending) then Waiting
    else Make(amount - SucceededTotal(seen), OverCount(seen))
  }

  /** The refund made under a key, if any. */
  function Keyed(refunds: seq<Refund>, key: Key): (r: Option<nat>)
    ensures r.Some? ==> r.value < |refunds| && refunds[r.value].key == Some(key)
    ensures r.None? ==> forall i :: 0 <= i < |refunds| ==> refunds[i].key != Some(key)
  {
    if refunds == [] then None
    else if refunds[|refunds| - 1].key == Some(key) then Some(|refunds| - 1)
    else Keyed(refunds[..|refunds| - 1], key)
  }

  function NewRefund(key: Option<Key>, amount: nat, first: Status): Refund {
    Refund(key, amount, first, first, {first})
  }

  function RefundsOf(w: World, payment: string): seq<Refund> {
    if payment in w.refunds then w.refunds[payment] else []
  }

  function AmountOf(w: World, payment: string): nat {
    if payment in w.amounts then w.amounts[payment] else 0
  }

  function Added(w: World, payment: string, refund: Refund): World {
    w.(refunds := w.refunds[payment := RefundsOf(w, payment) + [refund]])
  }

  /** Stripe asked for a refund under a key; a new one starts with status `first`. */
  function Created(w: World, payment: string, key: Key, amount: nat, first: Status): World {
    if Keyed(RefundsOf(w, payment), key).Some? then w else Added(w, payment, NewRefund(Some(key), amount, first))
  }

  /** The status a create answers, a repeated one as at first. */
  function Answer(w: World, payment: string, key: Key, first: Status): Status {
    var made := Keyed(RefundsOf(w, payment), key);
    if made.Some? then RefundsOf(w, payment)[made.value].answer else first
  }

  predicate CanStep(w: World, step: Step) {
    match step
    case List(_, _) => true
    case Create(pass, _) => pass < |w.passes|
    case ByHand(_, _, _) => true
    case Turn(payment, index, _) => index < |RefundsOf(w, payment)| && !Over(RefundsOf(w, payment)[index].status)
  }

  function Turned(refund: Refund, status: Status): Refund {
    refund.(status := status, had := refund.had + {status})
  }

  function Next(w: World, step: Step): World
    requires CanStep(w, step)
  {
    match step
    case List(payment, purpose) => w.(passes := w.passes + [Pass(purpose, payment, RefundsOf(w, payment))])
    case Create(pass, first) =>
      var p := w.passes[pass];
      var decision := Decide(p.seen, AmountOf(w, p.payment));
      if decision.Make? then Created(w, p.payment, Key(p.purpose, decision.count), decision.amount, first) else w
    case ByHand(payment, amount, first) => Added(w, payment, NewRefund(None, amount, first))
    case Turn(payment, index, status) =>
      var made := RefundsOf(w, payment);
      w.(refunds := w.refunds[payment := made[index := Turned(made[index], status)]])
  }

  /** A step that cannot happen does nothing. */
  function Tried(w: World, step: Step): World {
    if CanStep(w, step) then Next(w, step) else w
  }

  function Run(w: World, steps: seq<Step>): World
    decreases |steps|
  {
    if steps == [] then w else Run(Tried(w, steps[0]), steps[1..])
  }

  // --- Totals ---------------------------------------------------------------------------------------

  lemma TotalsAppended(refunds: seq<Refund>, r: Refund)
    ensures SucceededTotal(refunds + [r]) == SucceededTotal(refunds) + if r.status.Succeeded? then r.amount else 0
    ensures Given(refunds + [r]) == Given(refunds) + if Succeeded in r.had then r.amount else 0
    ensures LiveTotal(refunds + [r]) == LiveTotal(refunds) + if Over(r.status) then 0 else r.amount
  {
    assert (refunds + [r])[..|refunds|] == refunds;
  }

  /** A refund's own status, and the one its create was answered with, are of those it has had. */
  predicate Recorded(r: Refund) {
    r.status in r.had && r.answer in r.had
  }

  predicate AllRecorded(refunds: seq<Refund>) {
    forall i :: 0 <= i < |refunds| ==> Recorded(refunds[i])
  }

  /** What refunds give back now is what they ever gave less what came back. */
  lemma {:induction false} GivenSplits(refunds: seq<Refund>)
    requires AllRecorded(refunds)
    ensures Given(refunds) == SucceededTotal(refunds) + Returned(refunds)
  {
    if refunds != [] {
      assert Recorded(refunds[|refunds| - 1]);
      GivenSplits(refunds[..|refunds| - 1]);
    }
  }

  /** An earlier list of `now`: none removed, none changed but in its status, none that is over revived. */
  predicate Behind(seen: seq<Refund>, now: seq<Refund>) {
    |seen| <= |now| && forall i :: 0 <= i < |seen| ==> Older(seen[i], now[i])
  }

  predicate Older(a: Refund, b: Refund) {
    && a.key == b.key && a.amount == b.amount && a.answer == b.answer && a.had <= b.had
    && (Over(a.status) ==> a == b)
  }

  lemma BehindStill(seen: seq<Refund>, now: seq<Refund>, next: seq<Refund>)
    requires Behind(seen, now) && Behind(now, next)
    ensures Behind(seen, next)
  {
    forall i | 0 <= i < |seen| ensures Older(seen[i], next[i]) {
      assert Older(seen[i], now[i]) && Older(now[i], next[i]);
    }
  }

  /** What was given stays given. */
  lemma {:induction false} GivenGrows(seen: seq<Refund>, now: seq<Refund>)
    requires Behind(seen, now)
    ensures Given(seen) <= Given(now)
    decreases |now|
  {
    if |seen| < |now| {
      GivenGrows(seen, now[..|now| - 1]);
    } else if seen != [] {
      assert Older(seen[|seen| - 1], now[|now| - 1]);
      GivenGrows(seen[..|seen| - 1], now[..|now| - 1]);
    }
  }

  // --- What every run keeps -------------------------------------------------------------------------

  /** A refund under a key, with what was given before it, gives the whole amount once it succeeds. */
  predicate Completing(refunds: seq<Refund>, amount: nat) {
    forall i :: 0 <= i < |refunds| && refunds[i].key.Some? ==> Given(refunds[..i]) + refunds[i].amount >= amount
  }

  ghost predicate PassSound(w: World, pass: Pass) {
    AllRecorded(pass.seen) && Behind(pass.seen, RefundsOf(w, pass.payment))
  }

  ghost predicate PaymentSound(w: World, payment: string) {
    AllRecorded(RefundsOf(w, payment)) && Completing(RefundsOf(w, payment), AmountOf(w, payment))
  }

  ghost predicate Sound(w: World) {
    && (forall payment :: PaymentSound(w, payment))
    && (forall i :: 0 <= i < |w.passes| ==> PassSound(w, w.passes[i]))
  }

  /** What no step undoes. */
  ghost predicate Follows(a: World, b: World) {
    && a.amounts == b.amounts && |a.passes| <= |b.passes| && b.passes[..|a.passes|] == a.passes
    && forall payment :: Behind(RefundsOf(a, payment), RefundsOf(b, payment))
  }

  lemma AddedSound(w: World, paid: string, r: Refund)
    requires Sound(w) && Recorded(r)
    requires r.key.Some? ==> Given(RefundsOf(w, paid)) + r.amount >= AmountOf(w, paid)
    ensures Sound(Added(w, paid, r)) && Follows(w, Added(w, paid, r))
  {
    var after := Added(w, paid, r);
    var was := RefundsOf(w, paid);
    forall payment ensures PaymentSound(after, payment) && Behind(RefundsOf(w, payment), RefundsOf(after, payment)) {
      assert PaymentSound(w, payment);
      if payment == paid {
        AddedCompletes(was, r, AmountOf(w, paid));
      }
    }
    PassesSound(w, after);
  }

  lemma AddedCompletes(was: seq<Refund>, r: Refund, amount: nat)
    requires Completing(was, amount) && (r.key.Some? ==> Given(was) + r.amount >= amount)
    ensures Completing(was + [r], amount)
  {
    var now := was + [r];
    forall i | 0 <= i < |now| && now[i].key.Some? ensures Given(now[..i]) + now[i].amount >= amount {
      assert now[..i] == if i < |was| then was[..i] else was;
    }
  }

  lemma PassesSound(a: World, b: World)
    requires Sound(a) && a.passes == b.passes
    requires forall payment :: Behind(RefundsOf(a, payment), RefundsOf(b, payment))
    ensures forall i :: 0 <= i < |b.passes| ==> PassSound(b, b.passes[i])
  {
    forall i | 0 <= i < |b.passes| ensures PassSound(b, b.passes[i]) {
      assert PassSound(a, a.passes[i]);
      BehindStill(b.passes[i].seen, RefundsOf(a, b.passes[i].payment), RefundsOf(b, b.passes[i].payment));
    }
  }

  /** A create from a stale list repeats a key, or makes a refund that completes what was given. */
  lemma CreatedSound(w: World, seen: seq<Refund>, payment: string, purpose: string, first: Status)
    requires Sound(w) && AllRecorded(seen) && Behind(seen, RefundsOf(w, payment))
    requires Decide(seen, AmountOf(w, payment)).Make?
    ensures var decision := Decide(seen, AmountOf(w, payment));
            var after := Created(w, payment, Key(purpose, decision.count), decision.amount, first);
            Sound(after) && Follows(w, after)
  {
    var decision := Decide(seen, AmountOf(w, payment));
    GivenSplits(seen);
    GivenGrows(seen, RefundsOf(w, payment));
    assert forall p :: Behind(RefundsOf(w, p), RefundsOf(w, p));
    AddedSound(w, payment, NewRefund(Some(Key(purpose, decision.count)), decision.amount, first));
  }

  lemma TurnedSound(w: World, payment: string, index: nat, status: Status)
    requires Sound(w) && CanStep(w, Turn(payment, index, status))
    ensures Sound(Next(w, Turn(payment, index, status))) && Follows(w, Next(w, Turn(payment, index, status)))
  {
    var after := Next(w, Turn(payment, index, status));
    var was, now := RefundsOf(w, payment), RefundsOf(after, payment);
    assert PaymentSound(w, payment);
    assert Behind(was, now);
    forall i | 0 <= i < |now| && now[i].key.Some? ensures Given(now[..i]) + now[i].amount >= AmountOf(w, payment) {
      GivenGrows(was[..i], now[..i]);
    }
    forall p ensures PaymentSound(after, p) && Behind(RefundsOf(w, p), RefundsOf(after, p)) {
      assert PaymentSound(w, p);
    }
    PassesSound(w, after);
  }

  lemma NextSound(w: World, step: Step)
    requires Sound(w) && CanStep(w, step)
    ensures Sound(Next(w, step)) && Follows(w, Next(w, step))
  {
    match step
    case List(payment, purpose) =>
      var after := Next(w, step);
      assert PaymentSound(w, payment);
      forall p ensures PaymentSound(after, p) {
        assert PaymentSound(w, p);
      }
      forall i | 0 <= i < |after.passes| ensures PassSound(after, after.passes[i]) {
        if i < |w.passes| { assert PassSound(w, w.passes[i]); }
      }
    case Create(pass, first) =>
      var p := w.passes[pass];
      assert PassSound(w, p);
      if Decide(p.seen, AmountOf(w, p.payment)).Make? {
        CreatedSound(w, p.seen, p.payment, p.purpose, first);
      }
    case ByHand(payment, amount, first) => AddedSound(w, payment, NewRefund(None, amount, first));
    case Turn(payment, index, status) => TurnedSound(w, payment, index, status);
  }

  lemma FollowsOn(a: World, b: World, c: World)
    requires Follows(a, b) && Follows(b, c)
    ensures Follows(a, c)
  {
    forall payment ensures Behind(RefundsOf(a, payment), RefundsOf(c, payment)) {
      BehindStill(RefundsOf(a, payment), RefundsOf(b, payment), RefundsOf(c, payment));
    }
    assert c.passes[..|a.passes|] == c.passes[..|b.passes|][..|a.passes|];
  }

  /** Whatever passes, hands and Stripe do, from any sound world. */
  lemma {:induction false} RunSound(w: World, steps: seq<Step>)
    requires Sound(w)
    ensures Sound(Run(w, steps)) && Follows(w, Run(w, steps))
    decreases |steps|
  {
    hide Sound, Follows, Next, CanStep;
    if steps == [] {
      FollowsItself(w);
    } else {
      if CanStep(w, steps[0]) { NextSound(w, steps[0]); } else { FollowsItself(w); }
      RunSound(Tried(w, steps[0]), steps[1..]);
      FollowsOn(w, Tried(w, steps[0]), Run(w, steps));
    }
  }

  lemma FollowsItself(w: World)
    ensures Follows(w, w)
  {
  }

  lemma NothingSound(amounts: map<string, nat>)
    ensures Sound(World(amounts, map[], []))
  {
  }
}
