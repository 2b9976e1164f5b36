/**
 * Setup tokens: a token a Burrow minted lets one finish register a passkey. Finishes, retires, mints that
 * evict, sweeps and expiry interleave statement by statement; a transaction holds its token's row locked.
 */
module SetupTokens {
  import opened Wrappers

  /** Tokens are minted at random, so a new one is one never seen. */
  type Token = nat

  datatype Row = Row(burrow: nat, expiresAt: nat, claimed: bool)

  datatype Passkey = Passkey(user: nat, burrow: nat)

  datatype Limits = Limits(ttl: nat, tokens: nat, passkeys: nat)

  /**
   * `owners` says whose each Burrow is, and `enrolled` whose each ever was; `registered` is the token of
   * each registration, the earliest first.
   */
  datatype Tables = Tables(now: nat, tokens: map<Token, Row>, minted: set<Token>, owners: map<nat, nat>,
    enrolled: map<nat, nat>,
                           entitled: set<nat>, passkeys: map<nat, Passkey>, registered: seq<Token>)

  predicate Live(t: Tables, token: Token) {
    token in t.tokens && t.tokens[token].expiresAt > t.now
  }

  // --- Minting, which evicts ------------------------------------------------------------------------

  predicate LiveOf(t: Tables, burrow: nat, token: Token) {
    Live(t, token) && t.tokens[token].burrow == burrow
  }

  /** Whether `a` is kept before `b`: the latest expiry first, then by key. */
  predicate Before(t: Tables, a: Token, b: Token)
    requires a in t.tokens && b in t.tokens
  {
    t.tokens[a].expiresAt > t.tokens[b].expiresAt || (t.tokens[a].expiresAt == t.tokens[b].expiresAt && a < b)
  }

  /** A Burrow's live tokens kept before `token`. */
  function Ahead(t: Tables, burrow: nat, token: Token): set<Token>
    requires token in t.tokens
  {
    set a | a in t.tokens && LiveOf(t, burrow, a) && Before(t, a, token)
  }

  /** What a mint for `burrow` leaves of the rows: of its own, the live ones with fewer than `cap - 1` before them. */
  predicate Kept(t: Tables, cap: nat, burrow: nat, token: Token)
    requires token in t.tokens
  {
    t.tokens[token].burrow != burrow || (Live(t, token) && |Ahead(t, burrow, token)| < cap - 1)
  }

  function Minted(l: Limits, t: Tables, burrow: nat, token: Token): Tables {
    var kept := map k | k in t.tokens && Kept(t, l.tokens, burrow, k) :: t.tokens[k];
    t.(tokens := kept[token := Row(burrow, t.now + l.ttl, false)], minted := t.minted + {token})
  }

  // --- The statements -------------------------------------------------------------------------------

  datatype Spent = Spent(burrow: nat, user: nat)

  /** Whether a claim finds the token live and unclaimed. */
  predicate Claimable(t: Tables, token: Token) {
    Live(t, token) && !t.tokens[token].claimed && t.tokens[token].burrow in t.owners
  }

  function Claimed(t: Tables, token: Token): Tables {
    if Claimable(t, token) then t.(tokens := t.tokens[token := t.tokens[token].(claimed := true)]) else t
  }

  function Deleted(t: Tables, token: Token): Tables {
    t.(tokens := t.tokens - {token})
  }

  function Restored(t: Tables, token: Token): Tables {
    if token in t.tokens && t.tokens[token].claimed
        then t.(tokens := t.tokens[token := t.tokens[token].(claimed := false)]) else t
  }

  predicate Retirable(t: Tables, token: Token, user: nat) {
    token in t.tokens && t.tokens[token].burrow in t.owners && t.owners[t.tokens[token].burrow] == user
  }

  function Retired(t: Tables, token: Token, user: nat): Tables {
    if Retirable(t, token, user) then Deleted(t, token) else t
  }

  function Swept(t: Tables): Tables {
    t.(tokens := map k | k in t.tokens && t.tokens[k].expiresAt > t.now :: t.tokens[k])
  }

  /** A Burrow removed, its tokens with it. */
  function Removed(t: Tables, burrow: nat): Tables {
    t.(owners := t.owners - {burrow}, tokens := map k | k in t.tokens && t.tokens[k].burrow != burrow :: t.tokens[k])
  }

  function PasskeysOf(t: Tables, user: nat): set<nat> {
    set c | c in t.passkeys && t.passkeys[c].user == user
  }

  datatype Outcome = Full | Duplicate | Registered

  function OutcomeOf(l: Limits, t: Tables, credential: nat, user: nat): Outcome {
    if |PasskeysOf(t, user)| >= l.passkeys then Full else if credential in t.passkeys then Duplicate else Registered
  }

  /** The registration's transaction, its token's row locked and live when it was. */
  function Committed(l: Limits, t: Tables, token: Token, credential: nat, spent: Spent): Tables {
    if OutcomeOf(l, t, credential, spent.user).Registered? then
      Deleted(t, token).(passkeys := t.passkeys[credential := Passkey(spent.user, spent.burrow)],
          registered := t.registered + [token])
    else t
  }

  // --- Finishes, and everything beside them ---------------------------------------------------------

  /** Where a finish stands; `Holding` is inside its transaction. */
  datatype Stage = Arrived | Unentitled | Checking(spent: Spent) | Checked(spent: Spent) | Holding(spent: Spent)
    | Restoring | Over

  datatype Finish = Finish(token: Token, credential: nat, stage: Stage)

  datatype World = World(tables: Tables, finishes: seq<Finish>)

  /** `Fail` is a finish's error wherever it stands, `Die` its end with nothing restored. */
  datatype Step = Arrive(token: Token, credential: nat) | Claim(f: nat) | Drop(f: nat) | Check(f: nat, ok: bool)
    | Hold(f: nat)
    | Commit(f: nat, answered: bool) | Fail(f: nat) | Die(f: nat) | Restore(f: nat)
    | Retire(token: Token, user: nat) | Mint(burrow: nat, token: Token) | Sweep | Remove(burrow: nat)
    | Enroll(burrow: nat, user: nat)
    | Entitle(users: set<nat>) | Forget(credential: nat) | Tick(now: nat)

  predicate Locked(w: World, token: Token) {
    exists f :: 0 <= f < |w.finishes| && w.finishes[f].stage.Holding? && w.finishes[f].token == token
  }

  /** A statement that would touch a locked row waits. */
  predicate Unlocked(w: World, tables: Tables) {
    forall k :: k in w.tables.tokens && Locked(w, k) ==> k in tables.tokens && tables.tokens[k] == w.tables.tokens[k]
  }

  predicate At(w: World, f: nat) {
    f < |w.finishes|
  }

  function To(w: World, f: nat, stage: Stage): World
    requires At(w, f)
  {
    w.(finishes := w.finishes[f := w.finishes[f].(stage := stage)])
  }

  /** A finish past its claim and not yet done with it. */
  predicate Active(stage: Stage) {
    stage.Unentitled? || stage.Checking? || stage.Checked? || stage.Holding? || stage.Restoring?
  }

  predicate CanStep(l: Limits, w: World, step: Step) {
    var t := w.tables;
    match step
    case Arrive(_, _) => true
    case Claim(f) => At(w, f) && w.finishes[f].stage.Arrived?
    case Drop(f) => At(w, f) && w.finishes[f].stage.Unentitled?
    case Check(f, _) => At(w, f) && w.finishes[f].stage.Checking?
    case Hold(f) => At(w, f) && w.finishes[f].stage.Checked?
    case Commit(f, _) => At(w, f) && w.finishes[f].stage.Holding?
    case Fail(f) => At(w, f) && (w.finishes[f].stage.Checking? || w.finishes[f].stage.Checked? || w.finishes[f].stage.Holding?)
    case Die(f) => At(w, f)
    case Restore(f) => At(w, f) && w.finishes[f].stage.Restoring?
    case Retire(token, user) => Unlocked(w, Retired(t, token, user))
    case Mint(burrow, token) => burrow in t.owners && token !in t.minted && Unlocked(w, Minted(l, t, burrow, token))
    case Sweep => Unlocked(w, Swept(t))
    case Remove(burrow) => Unlocked(w, Removed(t, burrow))
    case Enroll(burrow, _) => burrow !in t.enrolled
    case Entitle(_) => true
    case Forget(_) => true
    case Tick(now) => t.now <= now
  }

  function Next(l: Limits, w: World, step: Step): World
    requires CanStep(l, w, step)
  {
    var t := w.tables;
    match step
    case Arrive(token, credential) => w.(finishes := w.finishes + [Finish(token, credential, Arrived)])
    case Claim(f) =>
      var token := w.finishes[f].token;
      if !Claimable(t, token) then To(w, f, Over)
      else
        var user := t.owners[t.tokens[token].burrow];
        To(w.(tables := Claimed(t, token)), f, if user in t.entitled then Checking(Spent(t.tokens[token].burrow, user))
            else Unentitled)
    case Drop(f) => To(w.(tables := Deleted(t, w.finishes[f].token)), f, Over)
    case Check(f, ok) => To(w, f, if ok then Checked(w.finishes[f].stage.spent) else Restoring)
    case Hold(f) =>
      var token := w.finishes[f].token;
      To(w, f, if Live(t, token) && t.tokens[token].claimed then Holding(w.finishes[f].stage.spent) else Restoring)
    case Commit(f, answered) =>
      var finish := w.finishes[f];
      var registered := OutcomeOf(l, t, finish.credential, finish.stage.spent.user).Registered?;
      To(w.(tables := Committed(l, t, finish.token, finish.credential, finish.stage.spent)), f,
          if registered && answered then Over else Restoring)
    case Fail(f) => To(w, f, Restoring)
    case Die(f) => To(w, f, Over)
    case Restore(f) => To(w.(tables := Restored(t, w.finishes[f].token)), f, Over)
    case Retire(token, user) => w.(tables := Retired(t, token, user))
    case Mint(burrow, token) => w.(tables := Minted(l, t, burrow, token))
    case Sweep => w.(tables := Swept(t))
    case Remove(burrow) => w.(tables := Removed(t, burrow))
    case Enroll(burrow, user) => w.(tables := t.(owners := t.owners[burrow := user],
        enrolled := t.enrolled[burrow := user]))
    case Entitle(users) => w.(tables := t.(entitled := users))
    case Forget(credential) => w.(tables := t.(passkeys := t.passkeys - {credential}))
    case Tick(now) => w.(tables := t.(now := now))
  }

  // --- What every run keeps -------------------------------------------------------------------------

  /** Each token registered is minted, gone and registered once. */
  predicate Registrations(t: Tables) {
    && (forall k :: k in t.tokens ==> k in t.minted)
    && (forall i :: 0 <= i < |t.registered| ==> t.registered[i] in t.minted && t.registered[i] !in t.tokens)
    && (forall i, j :: 0 <= i < j < |t.registered| ==> t.registered[i] != t.registered[j])
  }

  /** A finish past its claim is the only one, and its token is claimed while it lives. */
  predicate Exclusive(w: World) {
    && (forall f :: 0 <= f < |w.finishes| && Active(w.finishes[f].stage) ==> HasClaim(w, w.finishes[f]))
    && (forall f, g :: 0 <= f < g < |w.finishes| && Active(w.finishes[f].stage) && Active(w.finishes[g].stage) ==>
          w.finishes[f].token != w.finishes[g].token)
  }

  /** A token in its finish's hands: claimed if it lives, and certainly there while its row is locked. */
  predicate HasClaim(w: World, finish: Finish) {
    && finish.token in w.tables.minted
    && (finish.token in w.tables.tokens ==> w.tables.tokens[finish.token].claimed)
    && (finish.stage.Holding? ==> finish.token in w.tables.tokens)
  }

  /** A finish's Burrow and account are those its token was minted for. */
  predicate Knows(t: Tables, token: Token, spent: Spent) {
    && spent.burrow in t.enrolled && t.enrolled[spent.burrow] == spent.user
    && (token in t.tokens ==> t.tokens[token].burrow == spent.burrow)
  }

  predicate HasSpent(stage: Stage) {
    stage.Checking? || stage.Checked? || stage.Holding?
  }

  /**
   * Burrows' owners never change, and every passkey is of the account that owned the Burrow its token was
   * minted by.
   */
  ghost predicate Attributed(w: World) {
    && (forall b :: b in w.tables.owners ==> b in w.tables.enrolled && w.tables.enrolled[b] == w.tables.owners[b])
    && (forall f :: 0 <= f < |w.finishes| && HasSpent(w.finishes[f].stage) ==>
        Knows(w.tables, w.finishes[f].token, w.finishes[f].stage.spent))
    && (forall c :: c in w.tables.passkeys ==>
          w.tables.passkeys[c].burrow in w.tables.enrolled
              && w.tables.enrolled[w.tables.passkeys[c].burrow] == w.tables.passkeys[c].user)
  }

  ghost predicate Capped(l: Limits, t: Tables) {
    forall user :: |PasskeysOf(t, user)| <= l.passkeys
  }

  predicate Sound(w: World) {
    Registrations(w.tables) && Exclusive(w)
  }

  /** A step of the tables alone: rows go, stay, or come as new tokens. */
  predicate TablesKeep(w: World, t: Tables) {
    && w.tables.minted <= t.minted && t.registered == w.tables.registered
    && (forall k :: k in t.tokens ==>
        k in t.minted && (k in w.tables.minted ==> k in w.tables.tokens && t.tokens[k] == w.tables.tokens[k]))
    && (forall k :: k in w.tables.tokens && Locked(w, k) ==> k in t.tokens)
  }

  lemma TablesSound(w: World, t: Tables)
    requires Sound(w) && TablesKeep(w, t)
    ensures Sound(w.(tables := t))
  {
    forall f | 0 <= f < |w.finishes| && Active(w.finishes[f].stage) ensures HasClaim(w.(tables := t), w.finishes[f]) {
      assert HasClaim(w, w.finishes[f]);
    }
  }

  /** A step of the tables alone. */
  predicate Beside(step: Step) {
    step.Retire? || step.Mint? || step.Sweep? || step.Remove? || step.Enroll? || step.Entitle? || step.Forget?
        || step.Tick?
  }

  lemma BesideKeeps(l: Limits, w: World, step: Step)
    requires Sound(w) && CanStep(l, w, step)
    requires Beside(step)
    ensures TablesKeep(w, Next(l, w, step).tables) && Next(l, w, step).finishes == w.finishes
  {
  }

  /** A finish moved on, with what it did to its own token's row. */
  lemma OwnSound(w: World, f: nat, t: Tables, stage: Stage)
    requires Sound(w) && At(w, f) && Registrations(t) && t.minted == w.tables.minted
    requires forall k :: k != w.finishes[f].token ==>
             (k in t.tokens <==> k in w.tables.tokens) && (k in t.tokens ==> t.tokens[k] == w.tables.tokens[k])
    requires Active(stage) ==> HasClaim(World(t, w.finishes), w.finishes[f].(stage := stage))
    requires forall g :: 0 <= g < |w.finishes| && g != f && Active(w.finishes[g].stage) && w.finishes[g].token == w.finishes[f].token ==>
               !Active(stage) && t == w.tables
    ensures Sound(To(w.(tables := t), f, stage))
  {
    var after := To(w.(tables := t), f, stage);
    forall g | 0 <= g < |after.finishes| && Active(after.finishes[g].stage) ensures HasClaim(after, after.finishes[g]) {
      if g != f { assert HasClaim(w, w.finishes[g]); }
    }
  }

  /** While a finish is past its claim, its token cannot be claimed again. */
  lemma NotClaimable(w: World, f: nat)
    requires Sound(w) && At(w, f) && Active(w.finishes[f].stage)
    ensures !Claimable(w.tables, w.finishes[f].token)
    ensures forall g :: 0 <= g < |w.finishes| && g != f && Active(w.finishes[g].stage) ==>
            w.finishes[g].token != w.finishes[f].token
  {
    assert HasClaim(w, w.finishes[f]);
  }

  lemma NextSound(l: Limits, w: World, step: Step)
    requires Sound(w) && CanStep(l, w, step)
    ensures Sound(Next(l, w, step))
  {
    match step
    case Arrive(_, _) =>
      var after := Next(l, w, step);
      forall f | 0 <= f < |after.finishes| && Active(after.finishes[f].stage)
          ensures HasClaim(after, after.finishes[f]) {
        assert HasClaim(w, w.finishes[f]);
      }
    case Claim(f) => ClaimSound(l, w, f);
    case Drop(f) =>
      NotClaimable(w, f);
      OwnSound(w, f, Deleted(w.tables, w.finishes[f].token), Over);
    case Check(f, ok) =>
      NotClaimable(w, f);
      OwnSound(w, f, w.tables, if ok then Checked(w.finishes[f].stage.spent) else Restoring);
    case Hold(f) =>
      NotClaimable(w, f);
      OwnSound(w, f, w.tables, Next(l, w, step).finishes[f].stage);
    case Commit(f, answered) => CommitSound(l, w, f, answered);
    case Fail(f) =>
      NotClaimable(w, f);
      OwnSound(w, f, w.tables, Restoring);
    case Die(f) =>
      OwnSound(w, f, w.tables, Over);
    case Restore(f) =>
      NotClaimable(w, f);
      OwnSound(w, f, Restored(w.tables, w.finishes[f].token), Over);
    case _ =>
      BesideKeeps(l, w, step);
      TablesSound(w, Next(l, w, step).tables);
  }

  lemma ClaimSound(l: Limits, w: World, f: nat)
    requires Sound(w) && CanStep(l, w, Claim(f))
    ensures Sound(Next(l, w, Claim(f)))
  {
    var token := w.finishes[f].token;
    forall g | 0 <= g < |w.finishes| && Active(w.finishes[g].stage) && w.finishes[g].token == token
        ensures !Claimable(w.tables, token) {
      NotClaimable(w, g);
    }
    OwnSound(w, f, Claimed(w.tables, token), Next(l, w, Claim(f)).finishes[f].stage);
  }

  lemma CommitSound(l: Limits, w: World, f: nat, answered: bool)
    requires Sound(w) && CanStep(l, w, Commit(f, answered))
    ensures Sound(Next(l, w, Commit(f, answered)))
  {
    var finish := w.finishes[f];
    NotClaimable(w, f);
    assert HasClaim(w, finish);
    var t := Committed(l, w.tables, finish.token, finish.credential, finish.stage.spent);
    assert Registrations(t);
    OwnSound(w, f, t, Next(l, w, Commit(f, answered)).finishes[f].stage);
  }

  lemma BesideAttributed(l: Limits, w: World, step: Step)
    requires Sound(w) && Attributed(w) && CanStep(l, w, step) && Beside(step)
    ensures Attributed(Next(l, w, step))
  {
    BesideKeeps(l, w, step);
    var after := Next(l, w, step);
    assert forall b :: b in after.tables.owners ==>
        b in after.tables.enrolled && after.tables.enrolled[b] == after.tables.owners[b];
    assert forall b :: b in w.tables.enrolled ==>
        b in after.tables.enrolled && after.tables.enrolled[b] == w.tables.enrolled[b];
    NoPasskeyAdded(l, w, step);
    hide Next, CanStep;
    forall f | 0 <= f < |after.finishes| && HasSpent(after.finishes[f].stage)
      ensures Knows(after.tables, after.finishes[f].token, after.finishes[f].stage.spent)
    {
      assert HasClaim(w, w.finishes[f]);
    }
  }

  /** What a finish does to its own row changes no Burrow of it. */
  lemma OwnAttributed(l: Limits, w: World, step: Step)
    requires Sound(w) && Attributed(w) && CanStep(l, w, step) && !Beside(step)
    ensures Attributed(Next(l, w, step))
  {
    var after := Next(l, w, step);
    hide Locked, Unlocked, Registrations, Exclusive, PasskeysOf;
    assert after.tables.owners == w.tables.owners && after.tables.enrolled == w.tables.enrolled;
    assert forall k :: k in after.tables.tokens ==>
        k in w.tables.tokens && after.tables.tokens[k].burrow == w.tables.tokens[k].burrow;
  }

  /** No step changes whose a Burrow ever was, or lets a finish lose its own. */
  lemma NextAttributed(l: Limits, w: World, step: Step)
    requires Sound(w) && Attributed(w) && CanStep(l, w, step)
    ensures Attributed(Next(l, w, step))
  {
    hide Sound, Attributed, Next, CanStep;
    if Beside(step) {
      BesideAttributed(l, w, step);
    } else {
      OwnAttributed(l, w, step);
    }
  }

  lemma CommittedCapped(l: Limits, t: Tables, token: Token, credential: nat, spent: Spent)
    requires Capped(l, t)
    ensures Capped(l, Committed(l, t, token, credential, spent))
  {
    var after := Committed(l, t, token, credential, spent);
    if OutcomeOf(l, t, credential, spent.user).Registered? {
      forall user ensures |PasskeysOf(after, user)| <= l.passkeys {
        if user == spent.user {
          assert PasskeysOf(after, user) == PasskeysOf(t, user) + {credential};
        } else {
          assert PasskeysOf(after, user) == PasskeysOf(t, user);
        }
      }
    }
  }

  /** No step but a registration adds a passkey. */
  lemma NoPasskeyAdded(l: Limits, w: World, step: Step)
    requires CanStep(l, w, step) && !step.Commit?
    ensures forall c :: c in Next(l, w, step).tables.passkeys ==>
            c in w.tables.passkeys && Next(l, w, step).tables.passkeys[c] == w.tables.passkeys[c]
  {
    hide Claimable, Kept, Retirable;
  }

  lemma NextCapped(l: Limits, w: World, step: Step)
    requires Capped(l, w.tables) && CanStep(l, w, step)
    ensures Capped(l, Next(l, w, step).tables)
  {
    if step.Commit? {
      var finish := w.finishes[step.f];
      CommittedCapped(l, w.tables, finish.token, finish.credential, finish.stage.spent);
    } else {
      NoPasskeyAdded(l, w, step);
      var after := Next(l, w, step).tables;
      hide Next;
      forall user ensures |PasskeysOf(after, user)| <= l.passkeys {
        Smaller(PasskeysOf(after, user), PasskeysOf(w.tables, user));
      }
    }
  }

  function Run(l: Limits, w: World, steps: seq<Step>): World
    decreases |steps|
  {
    if steps == [] then w else Run(l, if CanStep(l, w, steps[0]) then Next(l, w, steps[0]) else w, steps[1..])
  }

  lemma {:induction false} RunSound(l: Limits, w: World, steps: seq<Step>)
    requires Sound(w) && Attributed(w) && Capped(l, w.tables)
    ensures Sound(Run(l, w, steps)) && Attributed(Run(l, w, steps)) && Capped(l, Run(l, w, steps).tables)
    decreases |steps|
  {
    if steps != [] {
      hide Sound, Attributed, Capped;
      if CanStep(l, w, steps[0]) {
        NextSound(l, w, steps[0]);
        NextAttributed(l, w, steps[0]);
        NextCapped(l, w, steps[0]);
        RunSound(l, Next(l, w, steps[0]), steps[1..]);
      } else {
        RunSound(l, w, steps[1..]);
      }
    }
  }

  const Empty := World(Tables(0, map[], {}, map[], map[], {}, map[], []), [])

  /** Whatever races it, a token registers at most one passkey, and at most one finish is past its claim. */
  lemma OncePerToken(l: Limits, steps: seq<Step>)
    ensures var w := Run(l, Empty, steps);
            && (forall i, j :: 0 <= i < j < |w.tables.registered| ==> w.tables.registered[i] != w.tables.registered[j])
            && (forall f, g :: 0 <= f < g < |w.finishes| && Active(w.finishes[f].stage) && Active(w.finishes[g].stage) ==>
                  w.finishes[f].token != w.finishes[g].token)
  {
    NothingYet(l);
    RunSound(l, Empty, steps);
  }

  lemma NothingYet(l: Limits)
    ensures Sound(Empty) && Attributed(Empty) && Capped(l, Empty.tables)
  {
    assert forall user :: PasskeysOf(Empty.tables, user) == {};
  }

  /**
   * Every passkey registered belongs to the account of the Burrow that minted its token, and no account's pass
   * the cap.
   */
  lemma PasskeysOfTheirOwner(l: Limits, steps: seq<Step>)
    ensures var t := Run(l, Empty, steps).tables;
            && (forall c :: c in t.passkeys ==>
                t.passkeys[c].burrow in t.enrolled && t.enrolled[t.passkeys[c].burrow] == t.passkeys[c].user)
            && (forall user :: |PasskeysOf(t, user)| <= l.passkeys)
  {
    NothingYet(l);
    RunSound(l, Empty, steps);
    assert Capped(l, Run(l, Empty, steps).tables);
  }

  /** A token that cannot register again: its row gone, or its time over with no transaction holding it. */
  predicate Dead(w: World, token: Token) {
    token in w.tables.minted && (token !in w.tables.tokens
        || (w.tables.tokens[token].expiresAt <= w.tables.now && !Locked(w, token)))
  }

  /** No step registers a dead token, revives it, or moves any row's expiry. */
  lemma DeadStays(l: Limits, w: World, step: Step, token: Token)
    requires Sound(w) && CanStep(l, w, step)
    ensures var after := Next(l, w, step);
            && (Dead(w, token) ==> Dead(after, token) && (token in after.tables.registered ==>
                token in w.tables.registered))
            && (token in w.tables.tokens && token in after.tables.tokens ==>
                after.tables.tokens[token].expiresAt == w.tables.tokens[token].expiresAt)
            && (token in after.tables.tokens && token !in w.tables.tokens ==> token !in w.tables.minted)
  {
    var after := Next(l, w, step);
    if step.Commit? {
      assert HasClaim(w, w.finishes[step.f]);
      assert Locked(w, w.finishes[step.f].token);
    }
    if Dead(w, token) && Locked(after, token) {
      var f :| 0 <= f < |after.finishes| && after.finishes[f].stage.Holding? && after.finishes[f].token == token;
      assert step.Hold? || (f < |w.finishes| && w.finishes[f].stage.Holding?);
    }
  }

  /** A retired, evicted, swept or expired token never registers afterwards, through any run. */
  lemma {:induction false} DeadForGood(l: Limits, w: World, steps: seq<Step>, token: Token)
    requires Sound(w) && Dead(w, token)
    ensures var end := Run(l, w, steps);
            Dead(end, token) && (token in end.tables.registered ==> token in w.tables.registered)
    decreases |steps|
  {
    if steps != [] {
      if CanStep(l, w, steps[0]) {
        DeadStays(l, w, steps[0], token);
        NextSound(l, w, steps[0]);
        DeadForGood(l, Next(l, w, steps[0]), steps[1..], token);
      } else {
        DeadForGood(l, w, steps[1..], token);
      }
    }
  }

  // --- The cap --------------------------------------------------------------------------------------

  lemma BeforeOrders(t: Tables, a: Token, b: Token, c: Token)
    requires a in t.tokens && b in t.tokens && c in t.tokens
    ensures Before(t, a, b) && Before(t, b, c) ==> Before(t, a, c)
    ensures a == b || Before(t, a, b) || Before(t, b, a)
    ensures !(Before(t, a, b) && Before(t, b, a))
  {
  }

  /** The one of some tokens that is kept last. */
  lemma {:induction false} LastOf(t: Tables, tokens: set<Token>) returns (last: Token)
    requires tokens != {} && forall k <- tokens :: k in t.tokens
    ensures last in tokens && forall k <- tokens :: k == last || Before(t, k, last)
    decreases |tokens|
  {
    last :| last in tokens;
    if tokens != {last} {
      var other := LastOf(t, tokens - {last});
      if !Before(t, other, last) {
        last := other;
      } else {
        forall k | k in tokens ensures k == last || Before(t, k, last) {
          BeforeOrders(t, k, other, last);
        }
      }
    }
  }

  /** Tokens each with fewer than `n` of the Burrow's before them are no more than `n`. */
  lemma FewAhead(t: Tables, burrow: nat, tokens: set<Token>, n: nat)
    requires forall k <- tokens :: k in t.tokens && LiveOf(t, burrow, k) && |Ahead(t, burrow, k)| < n
    ensures |tokens| <= n
  {
    if tokens != {} {
      var last := LastOf(t, tokens);
      assert tokens - {last} <= Ahead(t, burrow, last);
      Smaller(tokens - {last}, Ahead(t, burrow, last));
    }
  }

  function RowsOf(t: Tables, burrow: nat): set<Token> {
    set k | k in t.tokens && t.tokens[k].burrow == burrow
  }

  /**
   * A mint leaves its Burrow no more rows than the cap, the new one among them and no expired one, and every
   * other Burrow's.
   */
  lemma MintCapped(l: Limits, t: Tables, burrow: nat, token: Token)
    requires token !in t.tokens && l.tokens >= 1
    ensures var after := Minted(l, t, burrow, token);
            && |RowsOf(after, burrow)| <= l.tokens
            && token in after.tokens && after.tokens[token] == Row(burrow, t.now + l.ttl, false)
            && (forall k :: k in after.tokens && k != token ==>
                k in t.tokens && after.tokens[k] == t.tokens[k] && (t.tokens[k].burrow == burrow ==> Live(t, k)))
            && (forall k :: k in t.tokens && t.tokens[k].burrow != burrow ==> k in after.tokens)
  {
    var after := Minted(l, t, burrow, token);
    var others := RowsOf(after, burrow) - {token};
    FewAhead(t, burrow, others, l.tokens - 1);
    assert RowsOf(after, burrow) == others + {token};
  }

  /** Of a Burrow's live tokens a mint keeps those that expire last. */
  lemma LatestKept(l: Limits, t: Tables, burrow: nat, token: Token, a: Token, b: Token)
    requires token !in t.tokens && LiveOf(t, burrow, a) && LiveOf(t, burrow, b)
             && t.tokens[a].expiresAt > t.tokens[b].expiresAt
    ensures var after := Minted(l, t, burrow, token); b in after.tokens ==> a in after.tokens
  {
    forall k | k in Ahead(t, burrow, a) ensures k in Ahead(t, burrow, b) {
      BeforeOrders(t, k, a, b);
    }
    Smaller(Ahead(t, burrow, a), Ahead(t, burrow, b));
  }
}

module SetupTables {
  import opened Wrappers
  import opened SetupTokens

  /** The tables, a method a statement or a transaction's. */
  class RelayTables {
    const limits: Limits
    var now: nat
    var tokens: map<Token, Row>
    ghost var minted: set<Token>
    var owners: map<nat, nat>
    ghost var enrolled: map<nat, nat>
    var entitled: set<nat>
    var passkeys: map<nat, Passkey>
    ghost var registered: seq<Token>

    ghost function State(): Tables
      reads this
    {
      Tables(now, tokens, minted, owners, enrolled, entitled, passkeys, registered)
    }

    constructor (limits: Limits)
      ensures State() == Empty.tables && this.limits == limits
    {
      this.limits := limits;
      now, tokens, minted, owners, enrolled, entitled, passkeys, registered := 0, map[], {}, map[], map[], {}, map[],
          [];
    }

    /** Claims a live token for one finish; one whose owner is not entitled is spent. */
    method ClaimSetupToken(token: Token) returns (spent: Option<Spent>)
      modifies this`tokens
      ensures var was := old(State());
              if !Claimable(was, token) then State() == was && spent.None?
              else
                var user := was.owners[was.tokens[token].burrow];
                if user in was.entitled then State() == Claimed(was,
                    token) && spent == Some(Spent(was.tokens[token].burrow, user))
                else State() == Deleted(Claimed(was, token), token) && spent.None?
    {
      if token !in tokens || tokens[token].claimed || tokens[token].expiresAt <= now || tokens[token].burrow !in owners {
        return None;
      }
      var row := tokens[token];
      tokens := tokens[token := row.(claimed := true)];
      var user := owners[row.burrow];
      if user !in entitled {
        tokens := tokens - {token};
        return None;
      }
      return Some(Spent(row.burrow, user));
    }

    method RestoreSetupToken(token: Token)
      modifies this`tokens
      ensures State() == Restored(old(State()), token)
    {
      if token in tokens && tokens[token].claimed {
        tokens := tokens[token := tokens[token].(claimed := false)];
      }
    }

    /** Spends a token for a signed-in phone, claimed or not; answers whether it was live and its owner entitled. */
    method RetireSetupToken(token: Token, user: nat) returns (spent: bool)
      modifies this`tokens
      ensures State() == Retired(old(State()), token, user)
      ensures spent == (Retirable(old(State()), token, user) && Live(old(State()), token) && user in entitled)
    {
      if token !in tokens || tokens[token].burrow !in owners || owners[tokens[token].burrow] != user {
        return false;
      }
      spent := tokens[token].expiresAt > now && user in entitled;
      tokens := tokens - {token};
    }

    /** The registration's transaction, its claim held. */
    method Register(token: Token, credential: nat, spent: Spent) returns (outcome: Outcome)
      requires token in tokens
      modifies this`tokens, this`passkeys, this`registered
      ensures outcome == OutcomeOf(limits, old(State()), credential, spent.user)
      ensures State() == Committed(limits, old(State()), token, credential, spent)
    {
      var count := |set c | c in passkeys && passkeys[c].user == spent.user|;
      assert PasskeysOf(State(), spent.user) == set c | c in passkeys && passkeys[c].user == spent.user;
      if count >= limits.passkeys {
        return Full;
      }
      if credential in passkeys {
        return Duplicate;
      }
      passkeys := passkeys[credential := Passkey(spent.user, spent.burrow)];
      tokens := tokens - {token};
      registered := registered + [token];
      return Registered;
    }
  }
}
