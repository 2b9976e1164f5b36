/** What each statement of a setup token's life does on its ordinary input, and what it refuses. */
module TokenEffects {
  import opened Wrappers
  import opened SetupTokens

  /** A finish is let past its claim exactly when its token is live, unclaimed and of a Burrow enrolled still. */
  lemma ClaimExactly(l: Limits, w: World, f: nat)
    requires CanStep(l, w, Claim(f))
    ensures var t := w.tables;
            var n := Next(l, w, Claim(f));
            var token := w.finishes[f].token;
            var found := token in t.tokens && t.tokens[token].expiresAt > t.now && !t.tokens[token].claimed
                         && t.tokens[token].burrow in t.owners;
            && |n.finishes| == |w.finishes|
            && (!found ==> n.tables == t && n.finishes[f].stage == Over)
            && (found ==>
                  var row := t.tokens[token];
                  var user := t.owners[row.burrow];
                  && n.tables == t.(tokens := t.tokens[token := Row(row.burrow, row.expiresAt, true)])
                  && n.finishes[f].stage == if user in t.entitled then Checking(Spent(row.burrow, user))
                      else Unentitled)
  {
  }

  /** What gives a token up: an unentitled finish its own, an owner theirs, time those expired, a Burrow all of its. */
  lemma GoneExactly(l: Limits, w: World, step: Step, k: Token)
    requires CanStep(l, w, step) && (step.Drop? || step.Retire? || step.Sweep? || step.Remove?)
    ensures var t := w.tables;
            var n := Next(l, w, step).tables;
            var goes := match step
              case Drop(f) => k == w.finishes[f].token
              case Retire(token, user) => k == token && k in t.tokens && t.tokens[k].burrow in t.owners
                                          && t.owners[t.tokens[k].burrow] == user
              case Sweep => k in t.tokens && t.tokens[k].expiresAt <= t.now
              case Remove(burrow) => k in t.tokens && t.tokens[k].burrow == burrow;
            && (k in n.tokens <==> k in t.tokens && !goes)
            && (k in n.tokens ==> n.tokens[k] == t.tokens[k])
            && n.passkeys == t.passkeys && n.registered == t.registered
  {
  }

  /** A transaction begins exactly when the row is live and claimed still. */
  lemma HoldExactly(l: Limits, w: World, f: nat)
    requires CanStep(l, w, Hold(f))
    ensures var t := w.tables;
            var n := Next(l, w, Hold(f));
            var token := w.finishes[f].token;
            && n.tables == t && |n.finishes| == |w.finishes|
            && n.finishes[f].stage ==
               if token in t.tokens && t.tokens[token].expiresAt > t.now && t.tokens[token].claimed
               then Holding(w.finishes[f].stage.spent) else Restoring
  {
  }

  /**
   * A registration is made exactly when its account has room and the passkey is not known: the passkey is the
   * account's and the Burrow's, and the token is gone. Otherwise nothing changes, and the token is to be restored.
   */
  lemma CommitExactly(l: Limits, w: World, f: nat, answered: bool)
    requires CanStep(l, w, Commit(f, answered))
    ensures var t := w.tables;
            var n := Next(l, w, Commit(f, answered));
            var finish := w.finishes[f];
            var spent := finish.stage.spent;
            var room := |set c | c in t.passkeys && t.passkeys[c].user == spent.user| < l.passkeys
                        && finish.credential !in t.passkeys;
            && |n.finishes| == |w.finishes|
            && n.finishes[f].stage == (if room && answered then Over else Restoring)
            && (!room ==> n.tables == t)
            && (room ==>
                  && n.tables.passkeys == t.passkeys[finish.credential := Passkey(spent.user, spent.burrow)]
                  && n.tables.tokens == t.tokens - {finish.token}
                  && n.tables.registered == t.registered + [finish.token])
  {
    assert PasskeysOf(w.tables, w.finishes[f].stage.spent.user)
        == set c | c in w.tables.passkeys && w.tables.passkeys[c].user == w.finishes[f].stage.spent.user;
  }

  /** A restored token is unclaimed, as it was otherwise; where it is gone, nothing comes back. */
  lemma RestoreExactly(l: Limits, w: World, f: nat)
    requires CanStep(l, w, Restore(f))
    ensures var t := w.tables;
            var n := Next(l, w, Restore(f));
            var token := w.finishes[f].token;
            && n.tables == t.(tokens := if token in t.tokens
                                        then t.tokens[token := Row(t.tokens[token].burrow, t.tokens[token].expiresAt,
                                            false)]
                                        else t.tokens)
            && |n.finishes| == |w.finishes| && n.finishes[f].stage == Over
  {
    var token := w.finishes[f].token;
    if token in w.tables.tokens && !w.tables.tokens[token].claimed {
      assert w.tables.tokens[token := w.tables.tokens[token]] == w.tables.tokens;
    }
  }

  // --- Ordinary runs ------------------------------------------------------------------------------------

  lemma RunOne(l: Limits, w: World, steps: seq<Step>, k: nat, next: World)
    requires k < |steps| && CanStep(l, w, steps[k]) && Next(l, w, steps[k]) == next
    ensures Run(l, w, steps[k..]) == Run(l, next, steps[k + 1..])
    ensures k == 0 ==> steps[k..] == steps
    ensures k + 1 == |steps| ==> Run(l, next, steps[k + 1..]) == next
  {
    assert steps[k..][1..] == steps[k + 1..];
  }

  /** A token a finish of an entitled owner would be let past its claim with. */
  predicate Open(t: Tables, token: Token) {
    token in t.tokens && t.tokens[token].expiresAt > t.now && !t.tokens[token].claimed
    && t.tokens[token].burrow in t.owners && t.owners[t.tokens[token].burrow] in t.entitled
  }

  /** A finish from its arrival to its answer, nothing beside it: the passkey is registered, and the token spent. */
  lemma Finishes(l: Limits, w: World, token: Token, credential: nat)
    requires Open(w.tables, token) && credential !in w.tables.passkeys
    requires var user := w.tables.owners[w.tables.tokens[token].burrow];
             |set c | c in w.tables.passkeys && w.tables.passkeys[c].user == user| < l.passkeys
    ensures var t := w.tables;
            var f := |w.finishes|;
            var steps := [Arrive(token, credential), Claim(f), Check(f, true), Hold(f), Commit(f, true)];
            var end := Run(l, w, steps).tables;
            && end.passkeys == t.passkeys[credential := Passkey(t.owners[t.tokens[token].burrow],
                t.tokens[token].burrow)]
            && end.tokens == t.tokens - {token} && end.registered == t.registered + [token]
  {
    var t := w.tables;
    var f := |w.finishes|;
    var steps := [Arrive(token, credential), Claim(f), Check(f, true), Hold(f), Commit(f, true)];
    var row := t.tokens[token];
    var spent := Spent(row.burrow, t.owners[row.burrow]);
    var claimed := t.(tokens := t.tokens[token := Row(row.burrow, row.expiresAt, true)]);
    var w1 := World(t, w.finishes + [Finish(token, credential, Arrived)]);
    var w2 := World(claimed, w.finishes + [Finish(token, credential, Checking(spent))]);
    var w3 := World(claimed, w.finishes + [Finish(token, credential, Checked(spent))]);
    var w4 := World(claimed, w.finishes + [Finish(token, credential, Holding(spent))]);
    assert Next(l, w, steps[0]) == w1;
    assert CanStep(l, w1, steps[1]) && Next(l, w1, steps[1]) == w2;
    assert CanStep(l, w2, steps[2]) && Next(l, w2, steps[2]) == w3;
    assert CanStep(l, w3, steps[3]) && Next(l, w3, steps[3]) == w4;
    assert CanStep(l, w4, steps[4]) && claimed.tokens - {token} == t.tokens - {token};
    CommitExactly(l, w4, f, true);
    hide Run, Next, CanStep;
    RunOne(l, w, steps, 0, w1);
    RunOne(l, w1, steps, 1, w2);
    RunOne(l, w2, steps, 2, w3);
    RunOne(l, w3, steps, 3, w4);
    RunOne(l, w4, steps, 4, Next(l, w4, Commit(f, true)));
  }

  /** A finish that fails its check leaves its token to be claimed again: the next one finishes with it. */
  lemma ClaimedAgain(l: Limits, w: World, token: Token, credential: nat)
    requires Open(w.tables, token)
    ensures var f := |w.finishes|;
            var steps := [Arrive(token, credential), Claim(f), Check(f, false), Restore(f)];
            Run(l, w, steps) == World(w.tables, w.finishes + [Finish(token, credential, Over)])
  {
    var t := w.tables;
    var f := |w.finishes|;
    var steps := [Arrive(token, credential), Claim(f), Check(f, false), Restore(f)];
    var row := t.tokens[token];
    var spent := Spent(row.burrow, t.owners[row.burrow]);
    var claimed := t.(tokens := t.tokens[token := Row(row.burrow, row.expiresAt, true)]);
    var w1 := World(t, w.finishes + [Finish(token, credential, Arrived)]);
    var w2 := World(claimed, w.finishes + [Finish(token, credential, Checking(spent))]);
    var w3 := World(claimed, w.finishes + [Finish(token, credential, Restoring)]);
    var w4 := World(t, w.finishes + [Finish(token, credential, Over)]);
    RunOne(l, w, steps, 0, w1);
    RunOne(l, w1, steps, 1, w2);
    RunOne(l, w2, steps, 2, w3);
    assert claimed.tokens[token := Row(row.burrow, row.expiresAt, false)] == t.tokens;
    RunOne(l, w3, steps, 3, w4);
  }

  /** A mint: a live row of the Burrow's, unclaimed, for as long as tokens last. */
  lemma MintsLive(l: Limits, w: World, burrow: nat, token: Token)
    requires CanStep(l, w, Mint(burrow, token))
    ensures var n := Next(l, w, Mint(burrow, token)).tables;
            && token in n.tokens && n.tokens[token] == Row(burrow, w.tables.now + l.ttl, false)
            && (forall k :: k in n.tokens && k != token ==> k in w.tables.tokens && n.tokens[k] == w.tables.tokens[k])
            && (forall k :: k in w.tables.tokens && w.tables.tokens[k].burrow != burrow ==> k in n.tokens)
  {
  }

  // --- How many a mint keeps ----------------------------------------------------------------------------

  /** Whether `a` expires after `b`, or with it and has the lesser key. */
  predicate Outlasts(t: Tables, a: Token, b: Token)
    requires a in t.tokens && b in t.tokens
  {
    t.tokens[a].expiresAt > t.tokens[b].expiresAt || (t.tokens[a].expiresAt == t.tokens[b].expiresAt && a < b)
  }

  function AheadIn(t: Tables, all: set<Token>, k: Token): set<Token>
    requires all <= t.tokens.Keys && k in t.tokens
  {
    set a | a in all && Outlasts(t, a, k)
  }

  /** Those with fewer than `n` ahead of them. */
  function First(t: Tables, all: set<Token>, n: int): set<Token>
    requires all <= t.tokens.Keys
  {
    set k | k in all && |AheadIn(t, all, k)| < n
  }

  lemma {:induction false} LastOf(t: Tables, all: set<Token>) returns (last: Token)
    requires all <= t.tokens.Keys && all != {}
    ensures last in all && forall k :: k in all && k != last ==> Outlasts(t, k, last)
    decreases |all|
  {
    var x :| x in all;
    last := x;
    if all - {x} != {} {
      var y := LastOf(t, all - {x});
      last := if Outlasts(t, x, y) then y else x;
      forall k | k in all && k != last ensures Outlasts(t, k, last) {
        assert k != x && k != y ==> k in all - {x} && Outlasts(t, k, y);
      }
    } else {
      forall k | k in all ensures k == x {
        assert k != x ==> k in all - {x};
      }
    }
  }

  /** Of any live tokens, the first `n` are `n` of them, or all. */
  lemma {:induction false} FirstCount(t: Tables, all: set<Token>, n: nat)
    requires all <= t.tokens.Keys
    ensures |First(t, all, n)| == Min(n, |all|)
    decreases |all|
  {
    if all == {} {
      assert First(t, all, n) == {};
    } else {
      var last := LastOf(t, all);
      var rest := all - {last};
      FirstCount(t, rest, n);
      forall k | k in rest ensures AheadIn(t, all, k) == AheadIn(t, rest, k) {
        assert Outlasts(t, k, last) && !Outlasts(t, last, k);
      }
      assert AheadIn(t, all, last) == rest;
      assert First(t, all, n) == First(t, rest, n) + if |rest| < n then {last} else {};
    }
  }

  function LiveOnes(t: Tables, burrow: nat): set<Token> {
    set k | k in t.tokens && t.tokens[k].burrow == burrow && t.tokens[k].expiresAt > t.now
  }

  /** A Burrow's rows but one. */
  function Others(t: Tables, burrow: nat, token: Token): set<Token> {
    set k | k in t.tokens && t.tokens[k].burrow == burrow && k != token
  }

  /** A mint keeps exactly one fewer of its Burrow's live tokens than the cap, or all of them if they are fewer. */
  lemma MintKeeps(l: Limits, w: World, burrow: nat, token: Token)
    requires CanStep(l, w, Mint(burrow, token)) && l.tokens >= 1 && token !in w.tables.tokens
    ensures var n := Next(l, w, Mint(burrow, token)).tables;
            |Others(n, burrow, token)| == Min(l.tokens - 1, |LiveOnes(w.tables, burrow)|)
  {
    var t := w.tables;
    var live := LiveOnes(t, burrow);
    FirstCount(t, live, l.tokens - 1);
    var kept := Others(Next(l, w, Mint(burrow, token)).tables, burrow, token);
    forall k ensures k in kept <==> k in First(t, live, l.tokens - 1) {
      if k in live {
        assert Ahead(t, burrow, k) == AheadIn(t, live, k);
      }
    }
    assert kept == First(t, live, l.tokens - 1);
  }
}
