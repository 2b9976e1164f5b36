/**
 * Closing an account while its owner checks out: a checkout opens its session and then reads whether the
 * account is closing; a closure writes that it is, then expires the sessions, ends what was paid, and
 * deletes the account.
 */
module Closure {
  import opened Wrappers

  /** A checkout session at Stripe; `Paid` has a subscription, `Ended` had one. */
  datatype Session = Open | Expired | Paid | Ended

  /** A checkout request, by the session it opened. */
  datatype Checkout = Begun | Opened(session: nat) | Passed(session: nat) | Refusing | Answered(session: nat) | Refused

  /** The closure's request, by what it has done. */
  datatype Closing = Idle | Flagged | Cancelled | Reconciled(current: set<nat>) | Closed

  /** One account: `closing` since when a closure holds off checkout, `user` whether the account stands. */
  datatype Account = Account(now: nat, user: bool, closing: Option<nat>, sessions: seq<Session>,
    checkouts: seq<Checkout>, closure: Closing)

  /** `Pay` is the buyer's, of a URL answered; `Give up` a checkout refused for its price. */
  datatype Step = Begin | OpenSession(c: nat, anew: bool) | ReadClosing(c: nat) | Decline(c: nat) | Cancel(c: nat)
    | Answer(c: nat)
    | Pay(session: nat)
    | Flag | CancelAll | Reconcile | End(session: nat) | Delete | Fail(cleared: bool)
    | Tick(now: nat)

  /** Whether checkout is to answer no URL. */
  predicate AccountClosing(a: Account, hold: nat) {
    !a.user || (a.closing.Some? && a.now < a.closing.value + hold)
  }

  /** The owner's open sessions expired. */
  function ExpiredAll(sessions: seq<Session>): (r: seq<Session>)
    ensures |r| == |sessions| && forall k :: 0 <= k < |r| ==> r[k] == if sessions[k].Open? then Expired else sessions[k]
  {
    seq(|sessions|, k requires 0 <= k < |sessions| => if sessions[k].Open? then Expired else sessions[k])
  }

  function PaidOnes(sessions: seq<Session>): set<nat> {
    set k | 0 <= k < |sessions| && sessions[k].Paid?
  }

  predicate HasAnswered(a: Account, session: nat) {
    exists c :: 0 <= c < |a.checkouts| && a.checkouts[c] == Answered(session)
  }

  predicate CanStep(a: Account, step: Step) {
    match step
    case OpenSession(c, anew) => c < |a.checkouts| && a.checkouts[c].Begun?
    case ReadClosing(c) => c < |a.checkouts| && a.checkouts[c].Opened?
    case Decline(c) => c < |a.checkouts| && a.checkouts[c].Passed?
    case Cancel(c) => c < |a.checkouts| && a.checkouts[c].Refusing?
    case Answer(c) => c < |a.checkouts| && a.checkouts[c].Passed?
    case Pay(session) => session < |a.sessions| && a.sessions[session].Open? && HasAnswered(a, session)
    case Flag => a.user && a.closure.Idle?
    case CancelAll => a.closure.Flagged?
    case Reconcile => a.closure.Cancelled?
    case End(session) => a.closure.Reconciled? && session in a.closure.current && session < |a.sessions|
    case Delete => a.closure.Reconciled? && a.closure.current == {}
    case Fail(_) => a.closure.Flagged? || a.closure.Cancelled? || a.closure.Reconciled?
    case Tick(now) => a.now <= now
    case _ => true
  }

  /** A session still open is taken up again, or gives way to a new one. */
  predicate Reuses(a: Account, anew: bool) {
    !anew && |a.sessions| > 0 && a.sessions[|a.sessions| - 1].Open?
  }

  function Next(a: Account, hold: nat, step: Step): Account
    requires CanStep(a, step)
  {
    match step
    case Begin => a.(checkouts := a.checkouts + [Begun])
    case OpenSession(c, anew) =>
      if Reuses(a, anew) then a.(checkouts := a.checkouts[c := Opened(|a.sessions| - 1)])
      else a.(sessions := ExpiredAll(a.sessions) + [Open], checkouts := a.checkouts[c := Opened(|a.sessions|)])
    case ReadClosing(c) => a.(checkouts := a.checkouts[c := if AccountClosing(a, hold) then Refusing
        else Passed(a.checkouts[c].session)])
    case Decline(c) => a.(checkouts := a.checkouts[c := Refusing])
    case Cancel(c) => a.(sessions := ExpiredAll(a.sessions), checkouts := a.checkouts[c := Refused])
    case Answer(c) => a.(checkouts := a.checkouts[c := Answered(a.checkouts[c].session)])
    case Pay(session) => a.(sessions := a.sessions[session := Paid])
    case Flag => a.(closing := Some(a.now), closure := Flagged)
    case CancelAll => a.(sessions := ExpiredAll(a.sessions), closure := Cancelled)
    case Reconcile => a.(closure := Reconciled(PaidOnes(a.sessions)))
    case End(session) => a.(sessions := a.sessions[session := Ended],
        closure := Reconciled(a.closure.current - {session}))
    case Delete => a.(user := false, closing := None, closure := Closed)
    case Fail(cleared) => a.(closing := if cleared then None else a.closing, closure := Idle)
    case Tick(now) => a.(now := now)
  }

  // --- What a closure inside its hold keeps ---------------------------------------------------------

  /** A checkout that was not turned back. */
  predicate Through(c: Checkout) {
    c.Passed? || c.Answered?
  }

  /** No URL answered, or about to be, can be paid. */
  predicate NonePayable(a: Account) {
    forall c :: 0 <= c < |a.checkouts| && Through(a.checkouts[c]) ==>
      a.checkouts[c].session < |a.sessions| && !a.sessions[a.checkouts[c].session].Open?
  }

  predicate SessionsKnown(a: Account) {
    forall c :: 0 <= c < |a.checkouts| && (Through(a.checkouts[c]) || a.checkouts[c].Opened?) ==>
        a.checkouts[c].session < |a.sessions|
  }

  /** The closure past its cancel, its hold not lapsed. */
  predicate Holding(a: Account, hold: nat) {
    (a.closure.Cancelled? || a.closure.Reconciled?) && a.closing.Some? && a.now < a.closing.value + hold
  }

  predicate Sound(a: Account, hold: nat) {
    && SessionsKnown(a)
    && (a.user <==> !a.closure.Closed?)
    && (a.closure.Flagged? || a.closure.Cancelled? || a.closure.Reconciled? ==>
        a.closing.Some? && a.closing.value <= a.now)
    && (Holding(a, hold) || a.closure.Closed? ==> NonePayable(a))
    && (Holding(a, hold) && a.closure.Reconciled? ==> PaidOnes(a.sessions) == a.closure.current)
    && (a.closure.Closed? ==> PaidOnes(a.sessions) == {})
  }

  /** The deletion comes while the closure still holds off checkout. */
  predicate InHold(a: Account, hold: nat, step: Step) {
    step.Delete? && a.closing.Some? ==> a.now < a.closing.value + hold
  }

  lemma ExpiredKeepsPaid(sessions: seq<Session>)
    ensures PaidOnes(ExpiredAll(sessions)) == PaidOnes(sessions)
            && PaidOnes(ExpiredAll(sessions) + [Open]) == PaidOnes(sessions)
  {
  }

  lemma OpenSound(a: Account, hold: nat, c: nat, anew: bool)
    requires Sound(a, hold) && CanStep(a, OpenSession(c, anew))
    ensures Sound(Next(a, hold, OpenSession(c, anew)), hold)
  {
    ExpiredKeepsPaid(a.sessions);
    hide PaidOnes;
  }

  lemma ClosureSound(a: Account, hold: nat, step: Step)
    requires Sound(a, hold) && CanStep(a, step) && InHold(a, hold, step)
    requires step.CancelAll? || step.Reconcile? || step.End? || step.Delete? || step.Flag? || step.Fail?
    ensures Sound(Next(a, hold, step), hold)
  {
    if step.End? {
      assert PaidOnes(a.sessions[step.session := Ended]) == PaidOnes(a.sessions) - {step.session};
    }
  }

  lemma CheckoutSound(a: Account, hold: nat, step: Step)
    requires Sound(a, hold) && CanStep(a, step)
    requires step.Begin? || step.ReadClosing? || step.Decline? || step.Cancel? || step.Answer? || step.Tick?
             || step.Pay?
    ensures Sound(Next(a, hold, step), hold)
  {
    ExpiredKeepsPaid(a.sessions);
    assert Through(Answered(0)) && !Through(Begun);
    hide PaidOnes;
  }

  lemma NextSound(a: Account, hold: nat, step: Step)
    requires Sound(a, hold) && CanStep(a, step) && InHold(a, hold, step)
    ensures Sound(Next(a, hold, step), hold)
  {
    match step
    case OpenSession(c, anew) => OpenSound(a, hold, c, anew);
    case CancelAll => ClosureSound(a, hold, step);
    case Reconcile => ClosureSound(a, hold, step);
    case End(_) => ClosureSound(a, hold, step);
    case Delete => ClosureSound(a, hold, step);
    case Flag => ClosureSound(a, hold, step);
    case Fail(_) => ClosureSound(a, hold, step);
    case _ => CheckoutSound(a, hold, step);
  }

  function Run(a: Account, hold: nat, steps: seq<Step>): Account
    decreases |steps|
  {
    if steps == [] then a else Run(if CanStep(a, steps[0]) then Next(a, hold, steps[0]) else a, hold, steps[1..])
  }

  /** Every deletion in the run comes within its closure's hold. */
  predicate DeletesInHold(a: Account, hold: nat, steps: seq<Step>)
    decreases |steps|
  {
    steps == [] ||
      if CanStep(a, steps[0]) then InHold(a, hold, steps[0]) && DeletesInHold(Next(a, hold, steps[0]), hold, steps[1..])
      else DeletesInHold(a, hold, steps[1..])
  }

  lemma {:induction false} RunSound(a: Account, hold: nat, steps: seq<Step>)
    requires Sound(a, hold) && DeletesInHold(a, hold, steps)
    ensures Sound(Run(a, hold, steps), hold)
    decreases |steps|
  {
    hide Sound;
    if steps != [] {
      if CanStep(a, steps[0]) {
        NextSound(a, hold, steps[0]);
        RunSound(Next(a, hold, steps[0]), hold, steps[1..]);
      } else {
        RunSound(a, hold, steps[1..]);
      }
    }
  }

  const Fresh := Account(0, true, None, [], [], Idle)

  /**
   * However its owner's checkouts interleave with a closure that deletes within its hold, once the account
   * is gone no answered URL can be paid and no paid subscription is left.
   */
  lemma NothingPayableOnceGone(hold: nat, steps: seq<Step>)
    requires DeletesInHold(Fresh, hold, steps)
    ensures var a := Run(Fresh, hold, steps);
            !a.user ==> NonePayable(a) && PaidOnes(a.sessions) == {} && forall s :: HasAnswered(a, s) ==>
                !CanStep(a, Pay(s))
  {
    RunSound(Fresh, hold, steps);
    var a := Run(Fresh, hold, steps);
    if !a.user {
      forall s | HasAnswered(a, s) ensures !CanStep(a, Pay(s)) {
        var c :| 0 <= c < |a.checkouts| && a.checkouts[c] == Answered(s);
        assert Through(a.checkouts[c]);
      }
    }
  }

  /** The hold is what it takes: past it, at whatever delay, a checkout is answered and stays payable. */
  lemma PayablePastHold(hold: nat, late: nat)
    requires late >= hold
    ensures var steps := [Flag, CancelAll, Tick(late), Begin, OpenSession(0, true), ReadClosing(0), Answer(0),
            Reconcile, Delete];
            var a := Run(Fresh, hold, steps);
            !a.user && CanStep(a, Pay(0))
  {
    var steps := [Flag, CancelAll, Tick(late), Begin, OpenSession(0, true), ReadClosing(0), Answer(0), Reconcile,
        Delete];
    var a2 := Account(0, true, Some(0), [], [], Cancelled);
    var a7 := Account(late, true, Some(0), [Open], [Answered(0)], Cancelled);
    assert ExpiredAll([]) == [];
    assert Run(Fresh, hold, steps) == Run(a2, hold, steps[2..]) by {
      assert steps[1..][1..] == steps[2..];
      assert Next(Next(Fresh, hold, Flag), hold, CancelAll) == a2;
    }
    FromLapse(hold, late, steps[2..]);
    assert steps[2..][5..] == [Reconcile, Delete];
    assert [Reconcile, Delete][1..] == [Delete] && [Delete][1..] == [];
    var a8 := Next(a7, hold, Reconcile);
    assert a8.closure == Reconciled({}) by {
      assert PaidOnes([Open]) == {};
    }
    assert Run(a7, hold, [Reconcile, Delete]) == Run(a8, hold, [Delete]) == Run(Next(a8, hold, Delete), hold, []) ==
        Next(a8, hold, Delete);
    assert Next(a8, hold, Delete).checkouts[0] == Answered(0);
  }

  lemma FromLapse(hold: nat, late: nat, steps: seq<Step>)
    requires late >= hold && |steps| >= 5
             && steps[..5] == [Tick(late), Begin, OpenSession(0, true), ReadClosing(0), Answer(0)]
    ensures Run(Account(0, true, Some(0), [], [], Cancelled), hold, steps) ==
            Run(Account(late, true, Some(0), [Open], [Answered(0)], Cancelled), hold, steps[5..])
  {
    var a2 := Account(0, true, Some(0), [], [], Cancelled);
    var a3 := a2.(now := late);
    var a4 := a3.(checkouts := [Begun]);
    var a5 := a4.(sessions := [Open], checkouts := [Opened(0)]);
    var a6 := a5.(checkouts := [Passed(0)]);
    var a7 := a6.(checkouts := [Answered(0)]);
    assert forall k :: 0 <= k < 5 ==> steps[k] == steps[..5][k];
    assert ExpiredAll([]) + [Open] == [Open] && [] + [Begun] == [Begun];
    OneStep(a2, hold, steps, 0, a3);
    OneStep(a3, hold, steps, 1, a4);
    OneStep(a4, hold, steps, 2, a5);
    OneStep(a5, hold, steps, 3, a6);
    OneStep(a6, hold, steps, 4, a7);
    assert steps[0..] == steps;
  }

  lemma OneStep(a: Account, hold: nat, steps: seq<Step>, k: nat, after: Account)
    requires k < |steps| && CanStep(a, steps[k]) && Next(a, hold, steps[k]) == after
    ensures Run(a, hold, steps[k..]) == Run(after, hold, steps[k + 1..])
  {
    assert steps[k..][1..] == steps[k + 1..];
  }
}

module ClosureRoutes {
  import opened Wrappers
  import opened Closure

  /** A step of the owner's checkouts, of their buyer or of time. */
  predicate Beside(step: Step) {
    || step.Begin? || step.OpenSession? || step.ReadClosing? || step.Decline? || step.Cancel? || step.Answer?
    || step.Pay? || step.Tick?
  }

  lemma {:induction false} RunLonger(a: Account, hold: nat, steps: seq<Step>, step: Step)
    ensures var at := Run(a, hold, steps);
            Run(a, hold, steps + [step]) == if CanStep(at, step) then Next(at, hold, step) else at
    decreases |steps|
  {
    hide CanStep, Next;
    if steps == [] {
      assert ([] + [step])[1..] == [];
    } else {
      var next := if CanStep(a, steps[0]) then Next(a, hold, steps[0]) else a;
      assert (steps + [step])[1..] == steps[1..] + [step];
      RunLonger(next, hold, steps[1..], step);
    }
  }

  lemma {:induction false} NoDeletes(a: Account, hold: nat, steps: seq<Step>)
    requires forall k :: 0 <= k < |steps| ==> !steps[k].Delete?
    ensures DeletesInHold(a, hold, steps)
    decreases |steps|
  {
    if steps != [] {
      hide CanStep, Next;
      NoDeletes(if CanStep(a, steps[0]) then Next(a, hold, steps[0]) else a, hold, steps[1..]);
    }
  }

  /** The account's rows and Stripe sessions, a method what one await of a checkout's or closure's route does. */
  class AccountRecord {
    const hold: nat
    var now: nat
    var user: bool
    var closing: Option<nat>
    var sessions: seq<Session>
    var checkouts: seq<Checkout>
    var closure: Closing

    function State(): Account
      reads this
    {
      Account(now, user, closing, sessions, checkouts, closure)
    }

    constructor (hold: nat)
      ensures State() == Fresh && this.hold == hold
    {
      this.hold := hold;
      now, user, closing, sessions, checkouts, closure := 0, true, None, [], [], Idle;
    }

    /** Stripe's sessions of this owner still open, expired one by one. */
    method CancelCheckout()
      modifies this`sessions
      ensures sessions == ExpiredAll(old(sessions))
    {
      for k := 0 to |sessions|
        invariant |sessions| == |old(sessions)|
        invariant forall j :: 0 <= j < |sessions| ==>
                  sessions[j] == if j < k && old(sessions)[j].Open? then Expired else old(sessions)[j]
      {
        if sessions[k].Open? {
          sessions := sessions[k := Expired];
        }
      }
      assert sessions == ExpiredAll(old(sessions));
    }

    method OpenCheckout(c: nat, anew: bool)
      requires CanStep(State(), OpenSession(c, anew))
      modifies this`sessions, this`checkouts
      ensures State() == Next(old(State()), hold, OpenSession(c, anew))
    {
      if !anew && |sessions| > 0 && sessions[|sessions| - 1].Open? {
        checkouts := checkouts[c := Opened(|sessions| - 1)];
      } else {
        CancelCheckout();
        checkouts := checkouts[c := Opened(|sessions|)];
        sessions := sessions + [Open];
      }
    }

    /** Whether the account is gone or being closed, read after the session was opened. */
    method IsClosing(c: nat) returns (refused: bool)
      requires CanStep(State(), ReadClosing(c))
      modifies this`checkouts
      ensures State() == Next(old(State()), hold, ReadClosing(c)) && refused == AccountClosing(old(State()), hold)
    {
      refused := !user || (closing.Some? && closing.value + hold > now);
      checkouts := checkouts[c := if refused then Refusing else Passed(checkouts[c].session)];
    }

    method BeginClosing()
      requires CanStep(State(), Flag)
      modifies this`closing, this`closure
      ensures State() == Next(old(State()), hold, Flag)
    {
      closing := Some(now);
      closure := Flagged;
    }

    /** One step of anyone's, where it can be taken. */
    method Take(step: Step, ghost was: Account, ghost trace: seq<Step>) returns (ghost longer: seq<Step>)
      requires State() == Run(was, hold, trace) && !step.Delete?
      modifies this`now, this`user, this`closing, this`sessions, this`checkouts, this`closure
      ensures State() == Run(was, hold, longer) && longer == trace + [step]
      ensures State() == if CanStep(old(State()), step) then Next(old(State()), hold, step) else old(State())
    {
      longer := trace + [step];
      RunLonger(was, hold, trace, step);
      if CanStep(State(), step) {
        var next := Next(State(), hold, step);
        now, user, closing, sessions := next.now, next.user, next.closing, next.sessions;
        checkouts, closure := next.checkouts, next.closure;
      }
    }

    /** What the owner's checkouts, and time, do while a request is awaited. */
    method Await(others: seq<Step>, ghost was: Account, ghost trace: seq<Step>) returns (ghost longer: seq<Step>)
      requires State() == Run(was, hold, trace) && forall k :: 0 <= k < |others| ==> Beside(others[k])
      requires forall k :: 0 <= k < |trace| ==> !trace[k].Delete?
      modifies this`now, this`user, this`closing, this`sessions, this`checkouts, this`closure
      ensures State() == Run(was, hold, longer) && forall k :: 0 <= k < |longer| ==> !longer[k].Delete?
      ensures closure == old(closure) && |sessions| >= |old(sessions)|
    {
      longer := trace;
      for k := 0 to |others|
        invariant State() == Run(was, hold, longer) && forall k :: 0 <= k < |longer| ==> !longer[k].Delete?
        invariant closure == old(closure) && |sessions| >= |old(sessions)|
      {
        longer := Take(others[k], was, longer);
      }
    }

    /**
     * Every open session expired and every subscription then current ended, one request after another while
     * the owner's checkouts go on: a run of the model's, and, while the hold lasts, one that leaves nothing
     * paid.
     */
    method EndSubscriptions(coming: seq<seq<Step>>) returns (ghost trace: seq<Step>)
      requires CanStep(State(), CancelAll)
      requires forall t, k :: 0 <= t < |coming| && 0 <= k < |coming[t]| ==> Beside(coming[t][k])
      modifies this`now, this`user, this`closing, this`sessions, this`checkouts, this`closure
      ensures State() == Run(old(State()), hold, trace) && closure == Reconciled({})
      ensures Sound(old(State()), hold) ==> Sound(State(), hold)
      ensures Sound(old(State()), hold) && Holding(State(), hold) ==> PaidOnes(sessions) == {} && NonePayable(State())
    {
      ghost var was := State();
      trace := Take(CancelAll, was, []);
      var t := 0;
      if t < |coming| {
        trace := Await(coming[t], was, trace);
        t := t + 1;
      }
      trace := Take(Reconcile, was, trace);
      while closure.current != {}
        invariant State() == Run(was, hold, trace) && forall k :: 0 <= k < |trace| ==> !trace[k].Delete?
        invariant closure.Reconciled? && forall x <- closure.current :: x < |sessions|
        decreases |closure.current|
      {
        if t < |coming| {
          trace := Await(coming[t], was, trace);
          t := t + 1;
        }
        var session :| session in closure.current;
        trace := Take(End(session), was, trace);
      }
      NoDeletes(was, hold, trace);
      if Sound(was, hold) {
        RunSound(was, hold, trace);
      }
    }

    method Close()
      requires CanStep(State(), Delete)
      modifies this`user, this`closing, this`closure
      ensures State() == Next(old(State()), hold, Delete)
    {
      user := false;
      closing := None;
      closure := Closed;
    }
  }
}
