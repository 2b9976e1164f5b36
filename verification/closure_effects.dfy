/** What checkout and closure each do on their ordinary input, alone and against each other. */
module ClosureEffects {
  import opened Wrappers
  import opened Closure

  /**
   * A checkout that reads the account is let through exactly when the account stands and no closure holds it: none
   * began, or its hold has passed. Otherwise it is turned back.
   */
  lemma ReadExactly(a: Account, hold: nat, c: nat)
    requires CanStep(a, ReadClosing(c))
    ensures var n := Next(a, hold, ReadClosing(c));
            && n.sessions == a.sessions && |n.checkouts| == |a.checkouts|
            && (forall d :: 0 <= d < |a.checkouts| && d != c ==> n.checkouts[d] == a.checkouts[d])
            && n.checkouts[c] == if a.user && (a.closing == None || a.closing.value + hold <= a.now)
                                 then Passed(a.checkouts[c].session) else Refusing
  {
  }

  /**
   * A checkout takes up the owner's open session unless asked for a new one, and otherwise opens one in place
   * of any.
   */
  lemma OpenExactly(a: Account, hold: nat, c: nat, anew: bool)
    requires CanStep(a, OpenSession(c, anew))
    ensures var n := Next(a, hold, OpenSession(c, anew));
            var last := |a.sessions| - 1;
            && |n.checkouts| == |a.checkouts|
            && if !anew && a.sessions != [] && a.sessions[last] == Session.Open then
                 n.checkouts[c] == Opened(last) && n.sessions == a.sessions
               else
                 && n.checkouts[c] == Opened(|a.sessions|) && |n.sessions| == |a.sessions| + 1
                 && n.sessions[|a.sessions|] == Session.Open
                 && forall k :: 0 <= k < |a.sessions| ==>
                      n.sessions[k] == if a.sessions[k] == Session.Open then Expired else a.sessions[k]
  {
  }

  /** A refused checkout leaves no session of the owner's open, and changes none that was not. */
  lemma CancelExactly(a: Account, hold: nat, c: nat)
    requires CanStep(a, Cancel(c))
    ensures var n := Next(a, hold, Cancel(c));
            && |n.checkouts| == |a.checkouts| && n.checkouts[c] == Refused && |n.sessions| == |a.sessions|
            && forall k :: 0 <= k < |a.sessions| ==>
                 n.sessions[k] == if a.sessions[k] == Session.Open then Expired else a.sessions[k]
  {
  }

  lemma RunOne(a: Account, hold: nat, steps: seq<Step>, k: nat, next: Account)
    requires k < |steps| && CanStep(a, steps[k]) && Next(a, hold, steps[k]) == next
    ensures Run(a, hold, steps[k..]) == Run(next, hold, steps[k + 1..])
    ensures k == 0 ==> steps[k..] == steps
    ensures k + 1 == |steps| ==> Run(next, hold, steps[k + 1..]) == next
  {
    assert steps[k..][1..] == steps[k + 1..];
  }

  /** The ordinary checkout, of an account no closure holds: its URL is answered and can be paid. */
  lemma Checkout(a: Account, hold: nat)
    requires a.user && (a.closing == None || a.closing.value + hold <= a.now)
    ensures var c := |a.checkouts|;
            var steps := [Begin, OpenSession(c, true), ReadClosing(c), Answer(c)];
            var end := Run(a, hold, steps);
            && end.checkouts == a.checkouts + [Answered(|a.sessions|)]
            && CanStep(end, Pay(|a.sessions|)) && Next(end, hold, Pay(|a.sessions|)).sessions[|a.sessions|] == Paid
  {
    var c, s := |a.checkouts|, |a.sessions|;
    var steps := [Begin, OpenSession(c, true), ReadClosing(c), Answer(c)];
    var b := a.(checkouts := a.checkouts + [Begun]);
    var d := b.(sessions := ExpiredAll(a.sessions) + [Session.Open], checkouts := a.checkouts + [Opened(s)]);
    var e := d.(checkouts := a.checkouts + [Passed(s)]);
    var f := e.(checkouts := a.checkouts + [Answered(s)]);
    RunOne(a, hold, steps, 0, b);
    RunOne(b, hold, steps, 1, d);
    RunOne(d, hold, steps, 2, e);
    RunOne(e, hold, steps, 3, f);
    assert f.checkouts[c] == Answered(s) && f.sessions[s] == Session.Open;
  }

  /** The same of an account a closure holds, or that is gone: no URL is answered, and no session is left open. */
  lemma Turned(a: Account, hold: nat)
    requires !a.user || (a.closing.Some? && a.now < a.closing.value + hold)
    ensures var c := |a.checkouts|;
            var steps := [Begin, OpenSession(c, true), ReadClosing(c), Cancel(c)];
            var end := Run(a, hold, steps);
            && end.checkouts == a.checkouts + [Refused]
            && forall k :: 0 <= k < |end.sessions| ==> end.sessions[k] != Session.Open
  {
    var c, s := |a.checkouts|, |a.sessions|;
    var steps := [Begin, OpenSession(c, true), ReadClosing(c), Cancel(c)];
    var b := a.(checkouts := a.checkouts + [Begun]);
    var d := b.(sessions := ExpiredAll(a.sessions) + [Session.Open], checkouts := a.checkouts + [Opened(s)]);
    var e := d.(checkouts := a.checkouts + [Refusing]);
    var f := e.(sessions := ExpiredAll(d.sessions), checkouts := a.checkouts + [Refused]);
    RunOne(a, hold, steps, 0, b);
    RunOne(b, hold, steps, 1, d);
    RunOne(d, hold, steps, 2, e);
    RunOne(e, hold, steps, 3, f);
  }

  /** A closure as far as reading what is paid. */
  lemma Reconciles(a: Account, hold: nat, steps: seq<Step>)
    requires a.user && a.closure == Idle && |steps| > 3 && steps[0] == Flag && steps[1] == CancelAll
             && steps[2] == Reconcile
    ensures Run(a, hold, steps) ==
            Run(a.(closing := Some(a.now), sessions := ExpiredAll(a.sessions),
                closure := Reconciled(PaidOnes(a.sessions))),
                hold, steps[3..])
  {
    var b := a.(closing := Some(a.now), closure := Flagged);
    var c := b.(sessions := ExpiredAll(a.sessions), closure := Cancelled);
    assert PaidOnes(c.sessions) == PaidOnes(a.sessions);
    hide Run, PaidOnes;
    RunOne(a, hold, steps, 0, b);
    RunOne(b, hold, steps, 1, c);
    RunOne(c, hold, steps, 2, c.(closure := Reconciled(PaidOnes(a.sessions))));
  }

  /**
   * The ordinary closure, of an account with one subscription: the session open expires, the one paid ends, the
   * account goes.
   */
  lemma Closes(a: Account, hold: nat, paid: nat)
    requires a.user && a.closure == Idle && paid < |a.sessions|
    requires forall k :: 0 <= k < |a.sessions| ==> (a.sessions[k] == Paid <==> k == paid)
    ensures var end := Run(a, hold, [Flag, CancelAll, Reconcile, End(paid), Delete]);
            && !end.user && |end.sessions| == |a.sessions| && end.sessions[paid] == Ended
            && forall k :: 0 <= k < |a.sessions| && k != paid ==>
                 end.sessions[k] == if a.sessions[k] == Session.Open then Expired else a.sessions[k]
  {
    var steps := [Flag, CancelAll, Reconcile, End(paid), Delete];
    assert PaidOnes(a.sessions) == {paid} && {paid} - {paid} == {};
    hide Run, PaidOnes;
    Reconciles(a, hold, steps);
    var d := a.(closing := Some(a.now), sessions := ExpiredAll(a.sessions), closure := Reconciled({paid}));
    var e := d.(sessions := d.sessions[paid := Ended], closure := Reconciled({}));
    RunOne(d, hold, steps, 3, e);
    RunOne(e, hold, steps, 4, e.(user := false, closing := None, closure := Closed));
  }

  /** A closure that fails past its cancel and clears itself: the account stands, no closure holds it. */
  lemma GivesUp(a: Account, hold: nat)
    requires a.user && a.closure == Idle
    ensures var end := Run(a, hold, [Flag, CancelAll, Fail(true)]);
            && end.user && end.closing == None && end.closure == Idle
            && var left := Run(a, hold, [Flag, CancelAll, Fail(false)]);
               left.user && left.closing == Some(a.now) && left.closure == Idle
  {
    var cleared, kept := [Flag, CancelAll, Fail(true)], [Flag, CancelAll, Fail(false)];
    var b := a.(closing := Some(a.now), closure := Flagged);
    var c := b.(sessions := ExpiredAll(a.sessions), closure := Cancelled);
    RunOne(a, hold, cleared, 0, b);
    RunOne(b, hold, cleared, 1, c);
    RunOne(c, hold, cleared, 2, c.(closing := None, closure := Idle));
    RunOne(a, hold, kept, 0, b);
    RunOne(b, hold, kept, 1, c);
    RunOne(c, hold, kept, 2, c.(closure := Idle));
  }
}
