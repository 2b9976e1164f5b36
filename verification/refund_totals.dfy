/**
 * How much of a payment is refunded at once: never more than was paid by passes of one purpose, and by any
 * purposes and hands exactly when each new refund fits.
 */
module RefundTotals {
  import opened Wrappers
  import opened Refunds

  // --- One purpose ----------------------------------------------------------------------------------

  /** Keys 0, 1, 2, ... of one purpose, each refund the whole amount, all but the last over. */
  predicate Chain(refunds: seq<Refund>, purpose: string, amount: nat) {
    forall i :: 0 <= i < |refunds| ==>
      && refunds[i].key == Some(Key(purpose, i)) && refunds[i].amount == amount > 0
      && (i < |refunds| - 1 ==> Over(refunds[i].status))
  }

  predicate PassChained(w: World, pass: Pass, purpose: string) {
    && pass.purpose == purpose && Chain(pass.seen, purpose, AmountOf(w, pass.payment))
    && Behind(pass.seen, RefundsOf(w, pass.payment))
  }

  ghost predicate Chained(w: World, purpose: string) {
    && (forall payment :: Chain(RefundsOf(w, payment), purpose, AmountOf(w, payment)))
    && (forall i :: 0 <= i < |w.passes| ==> PassChained(w, w.passes[i], purpose))
  }

  /** A step of this purpose's passes or of Stripe. */
  predicate Of(step: Step, purpose: string) {
    !step.ByHand? && (step.List? ==> step.purpose == purpose)
  }

  /** A list no refund of which is pending, acted on or covering is of failed ones alone. */
  lemma AllOver(seen: seq<Refund>, purpose: string, amount: nat)
    requires Chain(seen, purpose, amount) && SucceededTotal(seen) < amount
    requires !Has(seen, RequiresAction) && !Has(seen, Pending)
    ensures forall i :: 0 <= i < |seen| ==> Over(seen[i].status)
  {
    if |seen| > 0 {
      var last := seen[|seen| - 1];
      assert last.status != RequiresAction && last.status != Pending;
    }
  }

  lemma {:induction false} OverTotals(refunds: seq<Refund>)
    requires forall i :: 0 <= i < |refunds| ==> Over(refunds[i].status)
    ensures SucceededTotal(refunds) == 0 && OverCount(refunds) == |refunds|
  {
    if refunds != [] { OverTotals(refunds[..|refunds| - 1]); }
  }

  /** A stale list's create repeats a key, or makes the next refund after ones that are all over. */
  lemma CreateKeeps(seen: seq<Refund>, now: seq<Refund>, purpose: string, amount: nat)
    requires Chain(seen, purpose, amount) && Chain(now, purpose, amount) && Behind(seen, now)
    requires Decide(seen, amount).Make?
    ensures Decide(seen, amount) == Make(amount, |seen|)
    ensures Keyed(now, Key(purpose, |seen|)) == if |seen| < |now| then Some(|seen|) else None
    ensures forall first :: |seen| == |now| ==>
              Chain(now + [NewRefund(Some(Key(purpose, |seen|)), amount, first)], purpose, amount)
  {
    AllOver(seen, purpose, amount);
    OverTotals(seen);
    assert forall i :: 0 <= i < |seen| ==> Older(seen[i], now[i]);
    if |seen| < |now| { assert now[|seen|].key == Some(Key(purpose, |seen|)); }
  }

  lemma ChainedOf(w: World, step: Step, purpose: string, payment: string)
    requires Chained(w, purpose) && CanStep(w, step) && Of(step, purpose)
    ensures Chain(RefundsOf(Next(w, step), payment), purpose, AmountOf(w, payment))
    ensures Behind(RefundsOf(w, payment), RefundsOf(Next(w, step), payment)) && Next(w, step).amounts == w.amounts
  {
    assert Chain(RefundsOf(w, payment), purpose, AmountOf(w, payment));
    if step.Create? {
      hide Decide;
      var p := w.passes[step.pass];
      assert PassChained(w, p, purpose);
      if Decide(p.seen, AmountOf(w, p.payment)).Make? {
        assert Chain(RefundsOf(w, p.payment), purpose, AmountOf(w, p.payment));
        CreateKeeps(p.seen, RefundsOf(w, p.payment), purpose, AmountOf(w, p.payment));
      }
    }
  }

  lemma NextChained(w: World, step: Step, purpose: string)
    requires Chained(w, purpose) && CanStep(w, step) && Of(step, purpose)
    ensures Chained(Next(w, step), purpose) && Next(w, step).amounts == w.amounts
  {
    var after := Next(w, step);
    forall payment
      ensures Chain(RefundsOf(after, payment), purpose, AmountOf(w, payment))
      ensures Behind(RefundsOf(w, payment), RefundsOf(after, payment)) && after.amounts == w.amounts
    {
      ChainedOf(w, step, purpose, payment);
    }
    forall i | 0 <= i < |after.passes| ensures PassChained(after, after.passes[i], purpose) {
      if i < |w.passes| {
        assert PassChained(w, w.passes[i], purpose);
        BehindStill(w.passes[i].seen, RefundsOf(w, w.passes[i].payment), RefundsOf(after, w.passes[i].payment));
      }
    }
  }

  lemma {:induction false} RunChained(w: World, steps: seq<Step>, purpose: string)
    requires Chained(w, purpose) && forall k :: 0 <= k < |steps| ==> Of(steps[k], purpose)
    ensures Chained(Run(w, steps), purpose) && Run(w, steps).amounts == w.amounts
    decreases |steps|
  {
    if steps != [] {
      hide Chained, Next, CanStep;
      if CanStep(w, steps[0]) { NextChained(w, steps[0], purpose); }
      RunChained(Tried(w, steps[0]), steps[1..], purpose);
    }
  }

  lemma {:induction false} ChainTotals(refunds: seq<Refund>, amount: nat)
    requires forall i :: 0 <= i < |refunds| ==>
               refunds[i].amount == amount && (i < |refunds| - 1 ==> Over(refunds[i].status))
    ensures LiveTotal(refunds) == if refunds == [] || Over(refunds[|refunds| - 1].status) then 0 else amount
    ensures SucceededTotal(refunds) == if refunds != [] && refunds[|refunds| - 1].status.Succeeded? then amount else 0
  {
    if refunds != [] { ChainTotals(refunds[..|refunds| - 1], amount); }
  }

  /**
   * From no refunds, whatever the passes and their stale lists, a payment has at most one refund that
   * has not failed, the keys used are 0 to m, and pending, awaited and succeeded refunds together never
   * pass what was paid.
   */
  lemma NeverOverRefunded(amounts: map<string, nat>, steps: seq<Step>, purpose: string, payment: string)
    requires forall k :: 0 <= k < |steps| ==> Of(steps[k], purpose)
    ensures var refunds := RefundsOf(Run(World(amounts, map[], []), steps), payment);
            && (forall i :: 0 <= i < |refunds| ==>
                  refunds[i].key == Some(Key(purpose, i)) && (i < |refunds| - 1 ==> Over(refunds[i].status)))
            && LiveTotal(refunds) <= AmountOf(World(amounts, map[], []), payment)
  {
    var first := World(amounts, map[], []);
    RunChained(first, steps, purpose);
    var refunds := RefundsOf(Run(first, steps), payment);
    assert Chain(refunds, purpose, AmountOf(first, payment));
    ChainTotals(refunds, AmountOf(first, payment));
  }

  // --- Any purposes, and refunds by hand --------------------------------------------------------------

  /** No more of a payment is refunded, or on its way, than was paid. */
  predicate Within(w: World, payment: string) {
    LiveTotal(RefundsOf(w, payment)) <= AmountOf(w, payment)
  }

  /**
   * What a step must find: a refund a pass newly makes, no more live by then than its list had seen
   * succeed; one by hand, room for it.
   */
  predicate Fits(w: World, step: Step, payment: string)
    requires CanStep(w, step)
  {
    match step
    case Create(pass, first) =>
      var p := w.passes[pass];
      var decision := Decide(p.seen, AmountOf(w, payment));
      p.payment == payment && decision.Make? && !Over(first) ==>
        || Keyed(RefundsOf(w, payment), Key(p.purpose, decision.count)).Some?
        || LiveTotal(RefundsOf(w, payment)) <= SucceededTotal(p.seen)
    case ByHand(paid, amount, first) =>
      paid == payment && !Over(first) ==> LiveTotal(RefundsOf(w, payment)) + amount <= AmountOf(w, payment)
    case _ => true
  }

  lemma {:induction false} LiveTurned(refunds: seq<Refund>, index: nat, status: Status)
    requires index < |refunds| && !Over(refunds[index].status)
    ensures LiveTotal(refunds[index := Turned(refunds[index], status)]) <= LiveTotal(refunds)
  {
    var now := refunds[index := Turned(refunds[index], status)];
    var n := |refunds| - 1;
    if index < n {
      LiveTurned(refunds[..n], index, status);
      assert now[..n] == refunds[..n][index := Turned(refunds[index], status)];
    } else {
      assert now[..n] == refunds[..n];
    }
  }

  lemma AddedFits(w: World, paid: string, r: Refund, payment: string)
    requires Within(w, payment)
    ensures Within(Added(w, paid, r), payment) <==>
            (paid == payment && !Over(r.status) ==> LiveTotal(RefundsOf(w, payment)) + r.amount <= AmountOf(w, payment))
  {
    TotalsAppended(RefundsOf(w, paid), r);
    hide LiveTotal;
  }

  lemma CreateFits(w: World, pass: nat, first: Status, payment: string)
    requires CanStep(w, Create(pass, first)) && Within(w, payment)
    ensures Within(Next(w, Create(pass, first)), payment) <==> Fits(w, Create(pass, first), payment)
  {
    hide Keyed, Within, Added, LiveTotal, SucceededTotal, OverCount;
    var p := w.passes[pass];
    var decision := Decide(p.seen, AmountOf(w, p.payment));
    if decision.Make? {
      AddedFits(w, p.payment, NewRefund(Some(Key(p.purpose, decision.count)), decision.amount, first), payment);
    }
  }

  lemma FitsExactly(w: World, step: Step, payment: string)
    requires CanStep(w, step) && Within(w, payment)
    ensures Within(Next(w, step), payment) <==> Fits(w, step, payment)
  {
    hide Decide, Keyed, LiveTotal, SucceededTotal, Created;
    match step
    case List(_, _) =>
    case Create(pass, first) => CreateFits(w, pass, first, payment);
    case ByHand(paid, amount, first) => AddedFits(w, paid, NewRefund(None, amount, first), payment);
    case Turn(paid, index, status) =>
      if paid == payment { LiveTurned(RefundsOf(w, payment), index, status); }
  }

  predicate AlwaysWithin(w: World, steps: seq<Step>, payment: string)
    decreases |steps|
  {
    Within(w, payment) && (steps == [] || AlwaysWithin(Tried(w, steps[0]), steps[1..], payment))
  }

  predicate AllFit(w: World, steps: seq<Step>, payment: string)
    decreases |steps|
  {
    steps == [] ||
    ((CanStep(w, steps[0]) ==> Fits(w, steps[0], payment)) && AllFit(Tried(w, steps[0]), steps[1..], payment))
  }

  /**
   * In a run of any number of purposes, by hand and by passes: a payment is never refunded beyond what
   * was paid if and only if each new refund fits when it is made.
   */
  lemma {:induction false} WithinExactlyWhenFitting(w: World, steps: seq<Step>, payment: string)
    requires Within(w, payment)
    ensures AlwaysWithin(w, steps, payment) <==> AllFit(w, steps, payment)
    decreases |steps|
  {
    if steps != [] {
      hide Within, Fits, CanStep, Next;
      if CanStep(w, steps[0]) { FitsExactly(w, steps[0], payment); }
      if Within(Tried(w, steps[0]), payment) {
        WithinExactlyWhenFitting(Tried(w, steps[0]), steps[1..], payment);
      }
    }
  }

  /** One purpose's steps, with none by hand, always fit. */
  lemma {:induction false} OnePurposeFits(w: World, steps: seq<Step>, purpose: string, payment: string)
    requires Chained(w, purpose) && forall k :: 0 <= k < |steps| ==> Of(steps[k], purpose)
    ensures AlwaysWithin(w, steps, payment) && AllFit(w, steps, payment)
    decreases |steps|
  {
    assert Chain(RefundsOf(w, payment), purpose, AmountOf(w, payment));
    ChainTotals(RefundsOf(w, payment), AmountOf(w, payment));
    if steps != [] {
      hide Chained, Next, CanStep, Fits;
      if CanStep(w, steps[0]) { NextChained(w, steps[0], purpose); }
      OnePurposeFits(Tried(w, steps[0]), steps[1..], purpose, payment);
    }
    WithinExactlyWhenFitting(w, steps, payment);
  }

  /** Where every refund is the whole amount, a new one fits exactly when every other is over. */
  lemma {:induction false} WholeFits(refunds: seq<Refund>, amount: nat)
    requires amount > 0 && forall i :: 0 <= i < |refunds| ==> refunds[i].amount == amount
    ensures LiveTotal(refunds) == 0 <==> forall i :: 0 <= i < |refunds| ==> Over(refunds[i].status)
  {
    if refunds != [] { WholeFits(refunds[..|refunds| - 1], amount); }
  }

  function TwoAtOnce(): seq<Step> {
    [List("p", "withdrawal"), List("p", "closure"), Create(0, Pending), Create(1, Pending)]
  }

  /** Two purposes need not fit: a withdrawal and a closure that listed at once refund twice what was paid. */
  lemma TwoPurposesDouble(amount: nat)
    requires amount > 0
    ensures var w := World(map["p" := amount], map[], []);
            LiveTotal(RefundsOf(Run(w, TwoAtOnce()), "p")) == 2 * amount && !AllFit(w, TwoAtOnce(), "p")
  {
    hide Run, AllFit, AlwaysWithin, LiveTotal, Within;
    var w0 := World(map["p" := amount], map[], []);
    var w2 := w0.(passes := [Pass("withdrawal", "p", []), Pass("closure", "p", [])]);
    ListedBoth(w0, w2);
    var w4 := MadeBoth(w2, amount);
    NothingLive(w0, w4);
    EndsBeyond(w0, TwoAtOnce(), "p");
    WithinExactlyWhenFitting(w0, TwoAtOnce(), "p");
  }

  lemma ListedBoth(w0: World, w2: World)
    requires w0.refunds == map[] && w0.passes == []
    requires w2 == w0.(passes := [Pass("withdrawal", "p", []), Pass("closure", "p", [])])
    ensures Run(w0, TwoAtOnce()) == Run(w2, TwoAtOnce()[2..])
  {
    var steps := TwoAtOnce();
    var w1 := w0.(passes := [Pass("withdrawal", "p", [])]);
    assert Next(w0, steps[0]) == w1 && Next(w1, steps[1]) == w2;
    hide Run;
    OneMore(w0, steps, 0, w1);
    OneMore(w1, steps, 1, w2);
    assert steps[0..] == steps;
  }

  lemma MadeBoth(w2: World, amount: nat) returns (w4: World)
    requires w2.passes == [Pass("withdrawal", "p", []), Pass("closure", "p", [])]
    requires AmountOf(w2, "p") == amount > 0 && RefundsOf(w2, "p") == []
    ensures Run(w2, TwoAtOnce()[2..]) == w4 && AmountOf(w4, "p") == amount
    ensures LiveTotal(RefundsOf(w4, "p")) == LiveTotal([]) + 2 * amount
  {
    hide Decide, Keyed, Created, LiveTotal;
    var steps := TwoAtOnce();
    FirstCreate(w2, 0, Key("withdrawal", 0), amount);
    var w3 := Next(w2, steps[2]);
    FirstCreate(w3, 1, Key("closure", 0), amount);
    w4 := Next(w3, steps[3]);
    OneMore(w2, steps, 2, w3);
    OneMore(w3, steps, 3, w4);
    assert steps[4..] == [] && Run(w4, []) == w4;
    TotalsAppended([], NewRefund(Some(Key("withdrawal", 0)), amount, Pending));
    TotalsAppended(RefundsOf(w3, "p"), NewRefund(Some(Key("closure", 0)), amount, Pending));
  }

  lemma NothingLive(w: World, end: World)
    requires w.refunds == map[] && AmountOf(end, "p") > 0
             && LiveTotal(RefundsOf(end, "p")) == LiveTotal([]) + 2 * AmountOf(end, "p")
    ensures Within(w, "p") && !Within(end, "p") && LiveTotal([]) == 0
  {
  }

  /** A pass that listed nothing makes the first refund under its key, whatever others made since. */
  lemma FirstCreate(w: World, pass: nat, key: Key, amount: nat)
    requires pass < |w.passes| && w.passes[pass] == Pass(key.purpose, "p", []) && key.count == 0
    requires AmountOf(w, "p") == amount > 0 && |RefundsOf(w, "p")| <= 1
    requires forall i :: 0 <= i < |RefundsOf(w, "p")| ==> RefundsOf(w, "p")[i].key != Some(key)
    ensures Next(w, Create(pass, Pending)) == Added(w, "p", NewRefund(Some(key), amount, Pending))
  {
    assert Decide([], amount) == Make(amount, 0);
  }

  lemma OneMore(w: World, steps: seq<Step>, k: nat, next: World)
    requires k < |steps| && CanStep(w, steps[k]) && Next(w, steps[k]) == next
    ensures Run(w, steps[k..]) == Run(next, steps[k + 1..])
  {
    assert steps[k..][1..] == steps[k + 1..];
  }

  lemma {:induction false} EndsBeyond(w: World, steps: seq<Step>, payment: string)
    requires !Within(Run(w, steps), payment)
    ensures !AlwaysWithin(w, steps, payment)
    decreases |steps|
  {
    if steps != [] { EndsBeyond(Tried(w, steps[0]), steps[1..], payment); }
  }
}
