/** What each statement of an enrollment does on its ordinary input, and what it refuses. */
module EnrollmentEffects {
  import opened Wrappers
  import opened Enrollment

  /** An approval is taken exactly when the code has no live one, and is then for its user, purpose and digits. */
  lemma ApproveExactly(l: Limits, w: World, code: nat, user: nat, purpose: Purpose, digits: nat)
    ensures var t := w.tables;
            var n := Next(l, w, Approve(code, user, purpose, digits));
            && n.polls == w.polls
            && if code in t.approvals && t.approvals[code].expiresAt > t.now then n.tables == t
               else n.tables == t.(approvals := t.approvals[code := Approval(|t.given|, user, purpose, digits,
                                                                            t.now + l.ttl, false, None)],
                                   given := t.given + [Given(code, user, purpose, digits)])
  {
  }

  /**
   * What a poll reads: it goes on, for the approver, exactly when the code's approval is live, for its purpose, not
   * redeemed, of the digits it shows, and the approver is entitled. Of the rest each has its answer, and only other
   * digits leave a mark.
   */
  lemma ReadExactly(l: Limits, w: World, p: nat)
    requires CanStep(w, Read(p))
    ensures var t := w.tables;
            var poll := w.polls[p];
            var n := Next(l, w, Read(p));
            && |n.polls| == |w.polls|
            && var stage := n.polls[p].stage;
            var found := poll.code in t.approvals && t.approvals[poll.code].expiresAt > t.now
                         && t.approvals[poll.code].purpose == poll.purpose;
            && (!found ==> stage == Answered(Pending) && n.tables == t)
            && (found ==>
                  var a := t.approvals[poll.code];
                  && (stage == Ready(a.user) <==> a.redeemed == None && a.digits == poll.digits && a.user in t.entitled)
                  && (a.redeemed.Some? ==> stage == Answered(Redeemed(a.redeemed.value)))
                  && (a.redeemed == None && a.digits != poll.digits ==> stage == Answered(Mismatch))
                  && (a.redeemed == None && a.digits == poll.digits && a.user !in t.entitled ==>
                        stage == Answered(NotEntitled))
                  && n.tables == t.(approvals := t.approvals[poll.code :=
                       a.(mismatched := a.mismatched || (a.redeemed == None && a.digits != poll.digits))]))
  {
    var poll := w.polls[p];
    if poll.code in w.tables.approvals {
      assert w.tables.approvals[poll.code := w.tables.approvals[poll.code]] == w.tables.approvals;
    }
  }

  /** Whether a poll's statement finds the approval it read: live, the user's, unredeemed, its purpose and digits. */
  predicate Finds(t: Tables, poll: Poll, user: nat) {
    && poll.code in t.approvals && t.approvals[poll.code].expiresAt > t.now && t.approvals[poll.code].user == user
    && t.approvals[poll.code].redeemed == None && t.approvals[poll.code].purpose == poll.purpose
    && t.approvals[poll.code].digits == poll.digits
  }

  /** A voice token is minted, and the approval spent, exactly when the statement finds it; else nothing changes. */
  lemma VoiceExactly(l: Limits, w: World, p: nat)
    requires CanStep(w, RedeemVoice(p))
    ensures var t := w.tables;
            var poll := w.polls[p];
            var user := poll.stage.user;
            var n := Next(l, w, RedeemVoice(p));
            && |n.polls| == |w.polls|
            && if Finds(t, poll, user) then
                 var a := t.approvals[poll.code];
                 && n.polls[p].stage == Answered(Enabled)
                 && n.tables == t.(approvals := t.approvals[poll.code := a.(redeemed := Some(None))],
                                   mints := t.mints + [Mint(a.id, poll.code, user, Voice, poll.digits, None)])
               else n.tables == t && n.polls[p].stage == Answered(Redeemed(None))
  {
  }

  /** An account's Burrows are counted under its lock, and a poll goes on exactly when there is room for one more. */
  lemma CountExactly(l: Limits, w: World, p: nat)
    requires CanStep(w, Count(p))
    ensures var t := w.tables;
            var user := w.polls[p].stage.user;
            var n := Next(l, w, Count(p));
            var held := set b | b in t.burrows && t.burrows[b] == user;
            && n.tables == t && |n.polls| == |w.polls|
            && n.polls[p].stage == if |held| < l.burrows then Counted(user, |held|) else Answered(FullAccount)
  {
    var user := w.polls[p].stage.user;
    assert BurrowsOf(w.tables, user) == set b | b in w.tables.burrows && w.tables.burrows[b] == user;
  }

  /** A Burrow is enrolled for the approver, and the approval spent on it, exactly when the statement finds it. */
  lemma RemoteExactly(l: Limits, w: World, p: nat, burrow: nat)
    requires CanStep(w, RedeemRemote(p, burrow))
    ensures var t := w.tables;
            var poll := w.polls[p];
            var user := poll.stage.user;
            var n := Next(l, w, RedeemRemote(p, burrow));
            && |n.polls| == |w.polls|
            && if Finds(t, poll, user) then
                 var a := t.approvals[poll.code];
                 && n.polls[p].stage == Answered(Enrolled(burrow))
                 && n.tables.burrows == t.burrows[burrow := user]
                 && n.tables.approvals == t.approvals[poll.code := a.(redeemed := Some(Some(burrow)))]
                 && n.tables.mints == t.mints + [Mint(a.id, poll.code, user, poll.purpose, poll.digits, Some(burrow))]
               else
                 && n.tables == t
                 && n.polls[p].stage == Answered(
                      if poll.code in t.approvals && t.approvals[poll.code].expiresAt > t.now
                         && t.approvals[poll.code].redeemed.Some? && t.approvals[poll.code].redeemed.value.Some?
                      then Redeemed(t.approvals[poll.code].redeemed.value) else ExpiredCode)
  {
  }

  // --- Ordinary runs ------------------------------------------------------------------------------------

  lemma RunOne(l: Limits, w: World, steps: seq<Step>, k: nat, next: World)
    requires k < |steps| && CanStep(w, steps[k]) && Next(l, w, steps[k]) == next
    ensures Run(l, w, steps[k..]) == Run(l, next, steps[k + 1..])
    ensures k == 0 ==> steps[k..] == steps
    ensures k + 1 == |steps| ==> steps[k + 1..] == []
  {
    assert steps[k..][1..] == steps[k + 1..];
  }

  /** An entitled user's approval, polled: the code's Burrow is enrolled as theirs. */
  lemma Enrolls(l: Limits, w: World, code: nat, user: nat, digits: nat, burrow: nat)
    requires code !in w.tables.approvals && user in w.tables.entitled && burrow !in w.tables.enrolled && l.ttl > 0
    requires |set b | b in w.tables.burrows && w.tables.burrows[b] == user| < l.burrows && !Locked(w, user)
    ensures var p := |w.polls|;
            var steps := [Approve(code, user, Remote, digits), Arrive(code, Remote, digits), Read(p), Count(p),
                          RedeemRemote(p, burrow)];
            var end := Run(l, w, steps);
            && end.tables.burrows == w.tables.burrows[burrow := user]
            && end.polls == w.polls + [Poll(code, Remote, digits, Answered(Enrolled(burrow)))]
            && code in end.tables.approvals && end.tables.approvals[code].redeemed == Some(Some(burrow))
  {
    var t := w.tables;
    var p := |w.polls|;
    var steps := [Approve(code, user, Remote, digits), Arrive(code, Remote, digits), Read(p), Count(p),
                  RedeemRemote(p, burrow)];
    var n := Approved(l, t, code, user, Remote, digits);
    var w1 := w.(tables := n);
    var w2 := World(n, w.polls + [Poll(code, Remote, digits, Arrived)]);
    assert BurrowsOf(n, user) == set b | b in t.burrows && t.burrows[b] == user;
    assert !Locked(w2, user);
    RunOne(l, w, steps, 0, w1);
    RunOne(l, w1, steps, 1, w2);
    hide Run, Approved, BurrowsOf, Locked;
    PollsThrough(l, w2, p, user, burrow, steps, 2);
  }

  /** A poll of an entitled user's approval, from its read on. */
  lemma PollsThrough(l: Limits, w: World, p: nat, user: nat, burrow: nat, steps: seq<Step>, k: nat)
    requires p < |w.polls| && w.polls[p].stage == Arrived && w.polls[p].purpose == Remote
    requires w.polls[p].code in w.tables.approvals
    requires var a := w.tables.approvals[w.polls[p].code];
             && a.expiresAt > w.tables.now && a.user == user && user in w.tables.entitled && a.redeemed == None
             && a.purpose == w.polls[p].purpose && a.digits == w.polls[p].digits
    requires |BurrowsOf(w.tables, user)| < l.burrows && !Locked(w, user) && burrow !in w.tables.enrolled
    requires k + 3 == |steps| && steps[k] == Read(p) && steps[k + 1] == Count(p)
             && steps[k + 2] == RedeemRemote(p, burrow)
    ensures var end := Run(l, w, steps[k..]);
            && end.tables == Spent(w.tables, w.polls[p], user, Some(burrow))
            && end.polls == w.polls[p := w.polls[p].(stage := Answered(Enrolled(burrow)))]
  {
    var w3 := To(w, p, Ready(user));
    var w4 := To(w, p, Counted(user, |BurrowsOf(w.tables, user)|));
    var w5 := World(Spent(w.tables, w.polls[p], user, Some(burrow)),
      w.polls[p := w.polls[p].(stage := Answered(Enrolled(burrow)))]);
    ReadsReady(l, w, p, user);
    assert !Locked(w3, user);
    hide Run, BurrowsOf, Locked, ReadStage, Marked;
    RunOne(l, w, steps, k, w3);
    RunOne(l, w3, steps, k + 1, w4);
    RunOne(l, w4, steps, k + 2, w5);
  }

  /** A poll that reads its own approval as given, of an entitled user, goes on for them. */
  lemma ReadsReady(l: Limits, w: World, p: nat, user: nat)
    requires p < |w.polls| && w.polls[p].stage == Arrived && w.polls[p].code in w.tables.approvals
    requires var a := w.tables.approvals[w.polls[p].code];
             && a.expiresAt > w.tables.now && a.user == user && user in w.tables.entitled && a.redeemed == None
             && a.purpose == w.polls[p].purpose && a.digits == w.polls[p].digits
    ensures Next(l, w, Read(p)) == To(w, p, Ready(user))
  {
  }

  /** And for voice: its token is enabled, and no Burrow comes of it. */
  lemma Enables(l: Limits, w: World, code: nat, user: nat, digits: nat)
    requires code !in w.tables.approvals && user in w.tables.entitled && l.ttl > 0
    ensures var p := |w.polls|;
            var steps := [Approve(code, user, Voice, digits), Arrive(code, Voice, digits), Read(p), RedeemVoice(p)];
            var end := Run(l, w, steps);
            && end.tables.burrows == w.tables.burrows
            && end.polls == w.polls + [Poll(code, Voice, digits, Answered(Enabled))]
            && code in end.tables.approvals && end.tables.approvals[code].redeemed == Some(None)
  {
    var t := w.tables;
    var p := |w.polls|;
    var steps := [Approve(code, user, Voice, digits), Arrive(code, Voice, digits), Read(p), RedeemVoice(p)];
    var n := Approved(l, t, code, user, Voice, digits);
    var w2 := World(n, w.polls + [Poll(code, Voice, digits, Arrived)]);
    var w3 := World(n, w.polls + [Poll(code, Voice, digits, Ready(user))]);
    var w4 := World(Spent(n, w3.polls[p], user, None), w.polls + [Poll(code, Voice, digits, Answered(Enabled))]);
    RunOne(l, w, steps, 0, w.(tables := n));
    RunOne(l, w.(tables := n), steps, 1, w2);
    RunOne(l, w2, steps, 2, w3);
    RunOne(l, w3, steps, 3, w4);
  }
}
