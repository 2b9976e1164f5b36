/**
 * Device-code enrollment: a user approves a code with the digits it showed, and polls of the code redeem
 * the approval for a Burrow or a voice token, statement by statement, a Burrow under its account's lock.
 */
module Enrollment {
  import opened Wrappers

  datatype Purpose = Remote | Voice

  /** What was approved: `id` tells apart the approvals a code has had. */
  datatype Approval = Approval(id: nat, user: nat, purpose: Purpose, digits: nat, expiresAt: nat, mismatched: bool,
    redeemed: Option<Option<nat>>)

  /** An approval as it was given. */
  datatype Given = Given(code: nat, user: nat, purpose: Purpose, digits: nat)

  /** A Burrow or a voice token minted for `user` by a poll of a code showing `digits`. */
  datatype Mint = Mint(approval: nat, code: nat, user: nat, purpose: Purpose, digits: nat, burrow: Option<nat>)

  datatype Limits = Limits(ttl: nat, burrows: nat)

  /** `given` and `mints` are every approval and every mint so far, `enrolled` every Burrow ever. */
  datatype Tables = Tables(now: nat, approvals: map<nat, Approval>, burrows: map<nat, nat>, entitled: set<nat>,
                           given: seq<Given>, mints: seq<Mint>, enrolled: set<nat>)

  datatype Answer = Pending | Redeemed(earlier: Option<nat>) | Mismatch | NotEntitled | FullAccount | ExpiredCode
    | Enabled | Enrolled(burrow: nat)

  /** A poll of a device code: what code, purpose and digits it stands for is its own, signed. */
  datatype Stage = Arrived | Ready(user: nat) | Counted(user: nat, count: nat) | Answered(answer: Answer)

  datatype Poll = Poll(code: nat, purpose: Purpose, digits: nat, stage: Stage)

  datatype World = World(tables: Tables, polls: seq<Poll>)

  predicate Live(t: Tables, code: nat) {
    code in t.approvals && t.approvals[code].expiresAt > t.now
  }

  // --- The statements -------------------------------------------------------------------------------

  /** An approval: the code's first, or in place of an expired one. */
  function Approved(l: Limits, t: Tables, code: nat, user: nat, purpose: Purpose, digits: nat): Tables {
    if Live(t, code) then t
    else t.(approvals := t.approvals[code := Approval(|t.given|, user, purpose, digits, t.now + l.ttl, false, None)],
            given := t.given + [Given(code, user, purpose, digits)])
  }

  /** A poll's read, which marks a live approval typed with other digits. */
  function Marked(t: Tables, p: Poll): Tables {
    if Live(t, p.code) && t.approvals[p.code].purpose == p.purpose && t.approvals[p.code].redeemed.None? && t.approvals[p.code].digits != p.digits
    then t.(approvals := t.approvals[p.code := t.approvals[p.code].(mismatched := true)])
    else t
  }

  function ReadStage(t: Tables, p: Poll): Stage {
    if !Live(t, p.code) || t.approvals[p.code].purpose != p.purpose then Answered(Pending)
    else
      var a := t.approvals[p.code];
      if a.redeemed.Some? then Answered(Redeemed(a.redeemed.value))
      else if a.digits != p.digits then Answered(Mismatch)
      else if a.user !in t.entitled then Answered(NotEntitled)
      else Ready(a.user)
  }

  /** Whether the statement that spends an approval finds it, for the user read before. */
  predicate Redeemable(t: Tables, p: Poll, user: nat) {
    Live(t, p.code) && var a :=
        t.approvals[p.code]; a.user == user && a.redeemed.None? && a.purpose == p.purpose && a.digits == p.digits
  }

  /** The approval spent and its credential minted, in one statement. */
  function Spent(t: Tables, p: Poll, user: nat, burrow: Option<nat>): Tables {
    if !Redeemable(t, p, user) then t
    else
      var a := t.approvals[p.code];
      t.(approvals := t.approvals[p.code := a.(redeemed := Some(burrow))],
         burrows := if burrow.Some? then t.burrows[burrow.value := user] else t.burrows,
         enrolled := if burrow.Some? then t.enrolled + {burrow.value} else t.enrolled,
         mints := t.mints + [Mint(a.id, p.code, user, p.purpose, p.digits, burrow)])
  }

  function SpentAnswer(t: Tables, p: Poll, user: nat, burrow: Option<nat>): Answer {
    if Redeemable(t, p, user) then if burrow.None? then Enabled else Enrolled(burrow.value)
    else if burrow.None? then Redeemed(None)
    else if Live(t, p.code) && t.approvals[p.code].redeemed.Some? && t.approvals[p.code].redeemed.value.Some?
        then Redeemed(t.approvals[p.code].redeemed.value)
    else ExpiredCode
  }

  function BurrowsOf(t: Tables, user: nat): set<nat> {
    set b | b in t.burrows && t.burrows[b] == user
  }

  // --- Polls, and everything beside them ------------------------------------------------------------

  /** `burrow` is the random id a redemption would give its Burrow. */
  datatype Step = Approve(code: nat, user: nat, purpose: Purpose, digits: nat)
    | Arrive(code: nat, purpose: Purpose, digits: nat)
    | Read(p: nat) | RedeemVoice(p: nat) | Count(p: nat) | RedeemRemote(p: nat, burrow: nat) | Abort(p: nat)
    | RemoveBurrow(burrow: nat) | Sweep | Entitle(users: set<nat>) | Tick(now: nat)

  predicate Locked(w: World, user: nat) {
    exists p :: 0 <= p < |w.polls| && w.polls[p].stage.Counted? && w.polls[p].stage.user == user
  }

  predicate CanStep(w: World, step: Step) {
    match step
    case Read(p) => p < |w.polls| && w.polls[p].stage.Arrived?
    case RedeemVoice(p) => p < |w.polls| && w.polls[p].stage.Ready? && w.polls[p].purpose == Voice
    case Count(p) => p < |w.polls| && w.polls[p].stage.Ready? && w.polls[p].purpose == Remote && !Locked(w,
        w.polls[p].stage.user)
    case RedeemRemote(p, burrow) => p < |w.polls| && w.polls[p].stage.Counted? && burrow !in w.tables.enrolled
    case Abort(p) => p < |w.polls|
    case Tick(now) => w.tables.now <= now
    case _ => true
  }

  function To(w: World, p: nat, stage: Stage): World
    requires p < |w.polls|
  {
    w.(polls := w.polls[p := w.polls[p].(stage := stage)])
  }

  function Next(l: Limits, w: World, step: Step): World
    requires CanStep(w, step)
  {
    var t := w.tables;
    match step
    case Approve(code, user, purpose, digits) => w.(tables := Approved(l, t, code, user, purpose, digits))
    case Arrive(code, purpose, digits) => w.(polls := w.polls + [Poll(code, purpose, digits, Arrived)])
    case Read(p) => To(w.(tables := Marked(t, w.polls[p])), p, ReadStage(t, w.polls[p]))
    case RedeemVoice(p) =>
      var user := w.polls[p].stage.user;
      To(w.(tables := Spent(t, w.polls[p], user, None)), p, Answered(SpentAnswer(t, w.polls[p], user, None)))
    case Count(p) =>
      var user := w.polls[p].stage.user;
      var count := |BurrowsOf(t, user)|;
      To(w, p, if count >= l.burrows then Answered(FullAccount) else Counted(user, count))
    case RedeemRemote(p, burrow) =>
      var user := w.polls[p].stage.user;
      To(w.(tables := Spent(t, w.polls[p], user, Some(burrow))), p,
          Answered(SpentAnswer(t, w.polls[p], user, Some(burrow))))
    case Abort(p) => To(w, p, Answered(ExpiredCode))
    case RemoveBurrow(burrow) => w.(tables := t.(burrows := t.burrows - {burrow}))
    case Sweep => w.(tables := t.(approvals := map c | c in t.approvals && t.approvals[c].expiresAt > t.now ::
        t.approvals[c]))
    case Entitle(users) => w.(tables := t.(entitled := users))
    case Tick(now) => w.(tables := t.(now := now))
  }

  // --- What every run keeps -------------------------------------------------------------------------

  /** A row is its approval as given, and unredeemed only if that minted nothing. */
  predicate RowSound(t: Tables, code: nat)
    requires code in t.approvals
  {
    var a := t.approvals[code];
    && a.id < |t.given| && t.given[a.id] == Given(code, a.user, a.purpose, a.digits)
    && (a.redeemed.None? ==> forall m :: 0 <= m < |t.mints| ==> t.mints[m].approval != a.id)
  }

  /** A mint is of an approval given, to its approver, for its purpose, on its digits. */
  predicate MintSound(t: Tables, mint: Mint) {
    && mint.approval < |t.given| && t.given[mint.approval] == Given(mint.code, mint.user, mint.purpose, mint.digits)
    && (mint.purpose == Remote <==> mint.burrow.Some?)
  }

  predicate MintsSound(t: Tables) {
    && (forall m :: 0 <= m < |t.mints| ==> MintSound(t, t.mints[m]))
    && (forall m, n :: 0 <= m < n < |t.mints| ==> t.mints[m].approval != t.mints[n].approval)
  }

  /** Every Burrow is of one mint. */
  predicate BurrowSound(t: Tables, burrow: nat)
    requires burrow in t.burrows
  {
    burrow in t.enrolled && exists m ::
        0 <= m < |t.mints| && t.mints[m].burrow == Some(burrow) && t.mints[m].user == t.burrows[burrow]
  }

  predicate TablesSound(t: Tables) {
    && (forall code :: code in t.approvals ==> RowSound(t, code))
    && MintsSound(t)
    && (forall b :: b in t.burrows ==> BurrowSound(t, b))
  }

  ghost predicate Capped(l: Limits, t: Tables) {
    forall user :: |BurrowsOf(t, user)| <= l.burrows
  }

  /** A count stands while its account's lock is held: Burrows only leave. */
  predicate CountsHold(l: Limits, w: World) {
    && (forall p :: 0 <= p < |w.polls| && w.polls[p].stage.Counted? ==>
          w.polls[p].purpose == Remote && |BurrowsOf(w.tables, w.polls[p].stage.user)| < l.burrows)
    && (forall p, q :: 0 <= p < q < |w.polls| && w.polls[p].stage.Counted? && w.polls[q].stage.Counted? ==>
          w.polls[p].stage.user != w.polls[q].stage.user)
  }

  ghost predicate Sound(l: Limits, w: World) {
    TablesSound(w.tables) && Capped(l, w.tables) && CountsHold(l, w)
  }

  lemma ApprovedSound(l: Limits, t: Tables, code: nat, user: nat, purpose: Purpose, digits: nat)
    requires TablesSound(t)
    ensures TablesSound(Approved(l, t, code, user, purpose, digits))
  {
    var after := Approved(l, t, code, user, purpose, digits);
    if !Live(t, code) {
      forall c | c in after.approvals ensures RowSound(after, c) {
        if c != code { assert RowSound(t, c); }
        assert forall m :: 0 <= m < |t.mints| ==> MintSound(t, t.mints[m]);
      }
      forall m | 0 <= m < |after.mints| ensures MintSound(after, after.mints[m]) {
        assert MintSound(t, t.mints[m]);
      }
      forall b | b in after.burrows ensures BurrowSound(after, b) {
        assert BurrowSound(t, b);
      }
    }
  }

  lemma MarkedSound(t: Tables, p: Poll)
    requires TablesSound(t)
    ensures TablesSound(Marked(t, p))
  {
    var after := Marked(t, p);
    forall c | c in after.approvals ensures RowSound(after, c) {
      assert RowSound(t, c);
    }
    forall m | 0 <= m < |after.mints| ensures MintSound(after, after.mints[m]) {
      assert MintSound(t, t.mints[m]);
    }
    forall b | b in after.burrows ensures BurrowSound(after, b) {
      assert BurrowSound(t, b);
    }
  }

  lemma SpentSound(t: Tables, p: Poll, user: nat, burrow: Option<nat>)
    requires TablesSound(t) && (p.purpose == Remote <==> burrow.Some?) && (burrow.Some? ==> burrow.value !in t.enrolled)
    ensures TablesSound(Spent(t, p, user, burrow))
  {
    var after := Spent(t, p, user, burrow);
    if Redeemable(t, p, user) {
      var a := t.approvals[p.code];
      assert RowSound(t, p.code);
      forall c | c in after.approvals ensures RowSound(after, c) {
        assert RowSound(t, c);
        assert c != p.code ==> t.approvals[c].id != a.id;
      }
      forall m | 0 <= m < |after.mints| ensures MintSound(after, after.mints[m]) {
        if m < |t.mints| { assert MintSound(t, t.mints[m]); }
      }
      forall b | b in after.burrows ensures BurrowSound(after, b) {
        if b in t.burrows {
          assert BurrowSound(t, b);
          var m :| 0 <= m < |t.mints| && t.mints[m].burrow == Some(b) && t.mints[m].user == t.burrows[b];
          assert after.mints[m] == t.mints[m];
        } else {
          assert after.mints[|t.mints|].burrow == Some(b);
        }
      }
    }
  }

  /** A Burrow's mint adds one to its account and nothing to others. */
  lemma SpentCounts(t: Tables, p: Poll, user: nat, burrow: Option<nat>, other: nat)
    requires burrow.Some? ==> burrow.value !in t.burrows
    ensures var after := Spent(t, p, user, burrow);
            |BurrowsOf(after, other)| <= |BurrowsOf(t, other)| + if other == user && burrow.Some? then 1 else 0
  {
    var after := Spent(t, p, user, burrow);
    if Redeemable(t, p, user) && burrow.Some? && other == user {
      assert BurrowsOf(after, other) == BurrowsOf(t, other) + {burrow.value};
    } else {
      assert BurrowsOf(after, other) == BurrowsOf(t, other);
    }
  }

  /** A step of the tables that adds no Burrow. */
  lemma FewerSound(l: Limits, w: World, t: Tables)
    requires Sound(l, w) && TablesSound(t) && forall b :: b in t.burrows ==>
             b in w.tables.burrows && t.burrows[b] == w.tables.burrows[b]
    ensures Sound(l, w.(tables := t))
  {
    forall user ensures |BurrowsOf(t, user)| <= |BurrowsOf(w.tables, user)| <= l.burrows {
      Smaller(BurrowsOf(t, user), BurrowsOf(w.tables, user));
    }
  }

  /** A poll moved on outside the lock. */
  lemma MovedSound(l: Limits, w: World, p: nat, stage: Stage)
    requires Sound(l, w) && p < |w.polls| && !stage.Counted?
    ensures Sound(l, To(w, p, stage))
  {
  }

  lemma RemovedSound(t: Tables, burrow: nat)
    requires TablesSound(t)
    ensures TablesSound(t.(burrows := t.burrows - {burrow}))
  {
    var after := t.(burrows := t.burrows - {burrow});
    forall c | c in after.approvals ensures RowSound(after, c) {
      assert RowSound(t, c);
    }
    forall m | 0 <= m < |after.mints| ensures MintSound(after, after.mints[m]) {
      assert MintSound(t, t.mints[m]);
    }
    forall b | b in after.burrows ensures BurrowSound(after, b) {
      assert BurrowSound(t, b);
    }
  }

  lemma OtherwiseSound(t: Tables, after: Tables)
    requires TablesSound(t) && after.given == t.given && after.mints == t.mints && after.burrows == t.burrows
             && after.enrolled == t.enrolled
    requires forall c :: c in after.approvals ==> c in t.approvals && after.approvals[c] == t.approvals[c]
    ensures TablesSound(after)
  {
    forall c | c in after.approvals ensures RowSound(after, c) {
      assert RowSound(t, c);
    }
    forall m | 0 <= m < |after.mints| ensures MintSound(after, after.mints[m]) {
      assert MintSound(t, t.mints[m]);
    }
    forall b | b in after.burrows ensures BurrowSound(after, b) {
      assert BurrowSound(t, b);
    }
  }

  lemma RedeemRemoteSound(l: Limits, w: World, p: nat, burrow: nat)
    requires Sound(l, w) && CanStep(w, RedeemRemote(p, burrow))
    ensures Sound(l, Next(l, w, RedeemRemote(p, burrow)))
  {
    hide TablesSound, Spent, BurrowsOf, SpentAnswer;
    var user := w.polls[p].stage.user;
    var t := Spent(w.tables, w.polls[p], user, Some(burrow));
    SpentSound(w.tables, w.polls[p], user, Some(burrow));
    NotEnrolled(w.tables, burrow);
    forall other ensures |BurrowsOf(t, other)| <= |BurrowsOf(w.tables, other)| + (if other == user then 1 else 0) {
      SpentCounts(w.tables, w.polls[p], user, Some(burrow), other);
    }
  }

  lemma NotEnrolled(t: Tables, burrow: nat)
    requires TablesSound(t) && burrow !in t.enrolled
    ensures burrow !in t.burrows
  {
  }

  lemma NextSound(l: Limits, w: World, step: Step)
    requires Sound(l, w) && CanStep(w, step)
    ensures Sound(l, Next(l, w, step))
  {
    hide TablesSound, Capped, BurrowsOf, SpentAnswer, ReadStage;
    match step
    case Approve(code, user, purpose, digits) =>
      ApprovedSound(l, w.tables, code, user, purpose, digits);
      FewerSound(l, w, Approved(l, w.tables, code, user, purpose, digits));
    case Arrive(_, _, _) =>
    case Read(p) =>
      MarkedSound(w.tables, w.polls[p]);
      FewerSound(l, w, Marked(w.tables, w.polls[p]));
      NeverCounted(w.tables, w.polls[p]);
      MovedSound(l, w.(tables := Marked(w.tables, w.polls[p])), p, ReadStage(w.tables, w.polls[p]));
    case RedeemVoice(p) =>
      var t := Spent(w.tables, w.polls[p], w.polls[p].stage.user, None);
      SpentSound(w.tables, w.polls[p], w.polls[p].stage.user, None);
      FewerSound(l, w, t);
      MovedSound(l, w.(tables := t), p, Next(l, w, step).polls[p].stage);
    case Count(p) => CountSound(l, w, p);
    case RedeemRemote(p, burrow) => RedeemRemoteSound(l, w, p, burrow);
    case Abort(p) => MovedSound(l, w, p, Answered(ExpiredCode));
    case RemoveBurrow(burrow) =>
      RemovedSound(w.tables, burrow);
      FewerSound(l, w, Next(l, w, step).tables);
    case _ =>
      OtherwiseSound(w.tables, Next(l, w, step).tables);
      FewerSound(l, w, Next(l, w, step).tables);
  }

  lemma NeverCounted(t: Tables, p: Poll)
    ensures !ReadStage(t, p).Counted?
  {
  }

  lemma CountSound(l: Limits, w: World, p: nat)
    requires Sound(l, w) && CanStep(w, Count(p))
    ensures Sound(l, Next(l, w, Count(p)))
  {
    hide TablesSound, Capped, BurrowsOf;
  }

  function Run(l: Limits, w: World, steps: seq<Step>): World
    decreases |steps|
  {
    if steps == [] then w else Run(l, if CanStep(w, steps[0]) then Next(l, w, steps[0]) else w, steps[1..])
  }

  lemma {:induction false} RunSound(l: Limits, w: World, steps: seq<Step>)
    requires Sound(l, w)
    ensures Sound(l, Run(l, w, steps))
    decreases |steps|
  {
    hide Sound;
    if steps != [] {
      if CanStep(w, steps[0]) {
        NextSound(l, w, steps[0]);
        RunSound(l, Next(l, w, steps[0]), steps[1..]);
      } else {
        RunSound(l, w, steps[1..]);
      }
    }
  }

  const Empty := World(Tables(0, map[], map[], {}, [], [], {}), [])

  /**
   * Over every interleaving: one approval mints at most one Burrow or voice token, always its approver's,
   * for its own purpose and on the digits typed; and no account's Burrows pass the cap.
   */
  lemma OncePerApproval(l: Limits, steps: seq<Step>)
    ensures var t := Run(l, Empty, steps).tables;
            && (forall m :: 0 <= m < |t.mints| ==> MintSound(t, t.mints[m]))
            && (forall m, n :: 0 <= m < n < |t.mints| ==> t.mints[m].approval != t.mints[n].approval)
            && (forall b :: b in t.burrows ==> BurrowSound(t, b))
            && (forall user :: |BurrowsOf(t, user)| <= l.burrows)
  {
    EmptySound(l);
    RunSound(l, Empty, steps);
    assert Capped(l, Run(l, Empty, steps).tables);
  }

  lemma EmptySound(l: Limits)
    ensures Sound(l, Empty)
  {
    forall user ensures |BurrowsOf(Empty.tables, user)| == 0 {
      assert BurrowsOf(Empty.tables, user) == {};
    }
  }
}

module EnrollmentTables {
  import opened Wrappers
  import opened Enrollment

  /**
   * The tables an approval and its polls share, a method a statement or a transaction's; `given` numbers the
   * approvals.
   */
  class Enrollments {
    const limits: Limits
    var now: nat
    var approvals: map<nat, Approval>
    var burrows: map<nat, nat>
    var entitled: set<nat>
    var given: seq<Given>
    ghost var mints: seq<Mint>
    ghost var enrolled: set<nat>

    ghost function State(): Tables
      reads this
    {
      Tables(now, approvals, burrows, entitled, given, mints, enrolled)
    }

    constructor (limits: Limits)
      ensures State() == Empty.tables && this.limits == limits
    {
      this.limits := limits;
      now, approvals, burrows, entitled, given, mints, enrolled := 0, map[], map[], {}, [], [], {};
    }

    /** Inserts the approval, or replaces an expired one; a live one, whoever's, stays. */
    method Approve(code: nat, user: nat, purpose: Purpose, digits: nat) returns (approved: bool)
      modifies this`approvals, this`given
      ensures approved == !Live(old(State()), code)
      ensures State() == Approved(limits, old(State()), code, user, purpose, digits)
    {
      approved := code !in approvals || approvals[code].expiresAt <= now;
      if approved {
        approvals := approvals[code := Approval(|given|, user, purpose, digits, now + limits.ttl, false, None)];
        given := given + [Given(code, user, purpose, digits)];
      }
    }

    /** A poll's read, up to the approval it may redeem. */
    method ReadApproval(p: Poll) returns (stage: Stage)
      modifies this`approvals
      ensures State() == Marked(old(State()), p) && stage == ReadStage(old(State()), p)
    {
      if p.code !in approvals || approvals[p.code].expiresAt <= now || approvals[p.code].purpose != p.purpose {
        return Answered(Pending);
      }
      var approval := approvals[p.code];
      if approval.redeemed.Some? {
        return Answered(Redeemed(approval.redeemed.value));
      }
      if approval.digits != p.digits {
        approvals := approvals[p.code := approval.(mismatched := true)];
        return Answered(Mismatch);
      }
      return if approval.user in entitled then Ready(approval.user) else Answered(NotEntitled);
    }

    method RedeemVoice(p: Poll, user: nat) returns (answer: Answer)
      modifies this`approvals, this`mints
      ensures State() == Spent(old(State()), p, user, None) && answer == SpentAnswer(old(State()), p, user, None)
    {
      if p.code in approvals {
        var a := approvals[p.code];
        if a.expiresAt > now && a.user == user && a.redeemed.None? && a.purpose == p.purpose && a.digits == p.digits {
          approvals := approvals[p.code := a.(redeemed := Some(None))];
          mints := mints + [Mint(a.id, p.code, user, p.purpose, p.digits, None)];
          return Enabled;
        }
      }
      return Redeemed(None);
    }

    /** The locked transaction: the account's Burrows counted, then the approval spent for a new one. */
    method EnrollBurrow(p: Poll, user: nat, burrow: nat) returns (answer: Answer)
      modifies this`approvals, this`burrows, this`mints, this`enrolled
      ensures var was := old(State());
              if |BurrowsOf(was, user)| >= limits.burrows then State() == was && answer == FullAccount
              else State() == Spent(was, p, user, Some(burrow)) && answer == SpentAnswer(was, p, user, Some(burrow))
    {
      assert BurrowsOf(State(), user) == set b | b in burrows && burrows[b] == user;
      if |set b | b in burrows && burrows[b] == user| >= limits.burrows {
        return FullAccount;
      }
      if p.code in approvals {
        var a := approvals[p.code];
        if a.expiresAt > now && a.user == user && a.redeemed.None? && a.purpose == p.purpose && a.digits == p.digits {
          approvals := approvals[p.code := a.(redeemed := Some(Some(burrow)))];
          burrows := burrows[burrow := user];
          enrolled := enrolled + {burrow};
          mints := mints + [Mint(a.id, p.code, user, p.purpose, p.digits, Some(burrow))];
          return Enrolled(burrow);
        }
        if a.expiresAt > now && a.redeemed.Some? && a.redeemed.value.Some? {
          return Redeemed(a.redeemed.value);
        }
      }
      return ExpiredCode;
    }
  }
}
