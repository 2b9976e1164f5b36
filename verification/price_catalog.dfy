/** The prices billing recognizes, and which scheduled price changes it acts on. */
module PriceCatalog {
  type Price = nat

  datatype Plan = Monthly | Yearly | Founding

  /** A change of a list plan's Price; none is ever of a founding one. */
  datatype Change = Change(plan: Plan, from: Price, to: Price, fromUsd: nat, toUsd: nat, effectiveAt: nat)

  datatype Listed = Listed(plan: Plan, usd: nat)

  datatype Setup = Setup(monthly: Price, yearly: Price, founding: seq<Price>, monthlyUsd: nat, yearlyUsd: nat,
    ladder: seq<nat>)

  datatype Catalog = Catalog(prices: map<Price, Listed>, usable: seq<Change>, refused: seq<Change>)

  predicate GoodSetup(s: Setup) {
    && |s.ladder| == |s.founding| && s.monthly != s.yearly && s.monthly !in s.founding && s.yearly !in s.founding
    && forall i, j :: 0 <= i < j < |s.founding| ==> s.founding[i] != s.founding[j]
  }

  predicate GoodChange(c: Change) {
    !c.plan.Founding? && c.from != c.to
  }

  predicate GoodChanges(changes: seq<Change>) {
    forall k :: 0 <= k < |changes| ==> GoodChange(changes[k])
  }

  function FoundingListed(s: Setup, n: nat): map<Price, Listed>
    requires n <= |s.founding| == |s.ladder|
  {
    if n == 0 then map[s.monthly := Listed(Monthly, s.monthlyUsd), s.yearly := Listed(Yearly, s.yearlyUsd)]
    else FoundingListed(s, n - 1)[s.founding[n - 1] := Listed(Founding, s.ladder[n - 1])]
  }

  /** The configured Prices at their published amounts. */
  function Configured(s: Setup): map<Price, Listed>
    requires GoodSetup(s)
  {
    FoundingListed(s, |s.founding|)
  }

  /** Whose each Price is once `changes` have been gone through, and which of them are usable. */
  function Owners(s: Setup, changes: seq<Change>): map<Price, Plan>
    requires GoodSetup(s)
  {
    if changes == [] then map p | p in Configured(s) :: Configured(s)[p].plan
    else
      var last := changes[|changes| - 1];
      var owners := Owners(s, changes[..|changes| - 1]);
      if Conflicts(owners, last) then owners else owners[last.from := last.plan][last.to := last.plan]
  }

  /** Whether a change names a Price that another plan holds. */
  predicate Conflicts(owners: map<Price, Plan>, c: Change) {
    (c.from in owners && owners[c.from] != c.plan) || (c.to in owners && owners[c.to] != c.plan)
  }

  function Usable(s: Setup, changes: seq<Change>): seq<Change>
    requires GoodSetup(s)
  {
    if changes == [] then []
    else
      var last := changes[|changes| - 1];
      var earlier := changes[..|changes| - 1];
      Usable(s, earlier) + if Conflicts(Owners(s, earlier), last) then [] else [last]
  }

  function Refused(s: Setup, changes: seq<Change>): seq<Change>
    requires GoodSetup(s)
  {
    if changes == [] then []
    else
      var last := changes[|changes| - 1];
      var earlier := changes[..|changes| - 1];
      Refused(s, earlier) + if Conflicts(Owners(s, earlier), last) then [last] else []
  }

  /** What `usable` adds to `prices`, one side of each change. */
  function Added(prices: map<Price, Listed>, usable: seq<Change>, newSide: bool): map<Price, Listed> {
    if usable == [] then prices
    else
      var last := usable[|usable| - 1];
      var before := Added(prices, usable[..|usable| - 1], newSide);
      var price := if newSide then last.to else last.from;
      if price in before then before
          else before[price := Listed(last.plan, if newSide then last.toUsd else last.fromUsd)]
  }

  function CatalogOf(s: Setup, changes: seq<Change>): Catalog
    requires GoodSetup(s)
  {
    var usable := Usable(s, changes);
    Catalog(Added(Added(Configured(s), usable, true), usable, false), usable, Refused(s, changes))
  }

  method AddSide(prices: map<Price, Listed>, usable: seq<Change>, newSide: bool) returns (r: map<Price, Listed>)
    ensures r == Added(prices, usable, newSide)
  {
    r := prices;
    assert usable[..0] == [];
    for k := 0 to |usable|
      invariant r == Added(prices, usable[..k], newSide)
    {
      assert usable[..k + 1][..k] == usable[..k];
      var price := if newSide then usable[k].to else usable[k].from;
      if price !in r {
        r := r[price := Listed(usable[k].plan, if newSide then usable[k].toUsd else usable[k].fromUsd)];
      }
    }
    assert usable[..|usable|] == usable;
  }

  method BuildCatalog(s: Setup, changes: seq<Change>) returns (catalog: Catalog)
    requires GoodSetup(s)
    ensures catalog == CatalogOf(s, changes)
  {
    hide Added;
    var configured := Configured(s);
    var owner: map<Price, Plan> := map p | p in configured :: configured[p].plan;
    var usable: seq<Change>, refused: seq<Change> := [], [];
    assert changes[..0] == [];
    for k := 0 to |changes|
      invariant owner == Owners(s, changes[..k]) && usable == Usable(s, changes[..k])
                && refused == Refused(s, changes[..k])
    {
      assert changes[..k + 1][..k] == changes[..k];
      var change := changes[k];
      if (change.from in owner && owner[change.from] != change.plan) || (change.to in owner && owner[change.to] != change.plan) {
        refused := refused + [change];
      } else {
        owner := owner[change.from := change.plan][change.to := change.plan];
        usable := usable + [change];
      }
    }
    assert changes[..|changes|] == changes;
    var withNew := AddSide(configured, usable, true);
    var prices := AddSide(withNew, usable, false);
    return Catalog(prices, usable, refused);
  }

  // --- What the catalog is --------------------------------------------------------------------------

  lemma {:induction false} ConfiguredIs(s: Setup, n: nat)
    requires GoodSetup(s) && n <= |s.founding|
    ensures var prices := FoundingListed(s, n);
            && s.monthly in prices && prices[s.monthly] == Listed(Monthly, s.monthlyUsd)
            && s.yearly in prices && prices[s.yearly] == Listed(Yearly, s.yearlyUsd)
            && (forall p :: p in prices ==> p == s.monthly || p == s.yearly || p in s.founding)
  {
    if n > 0 {
      ConfiguredIs(s, n - 1);
      assert s.founding[n - 1] in s.founding;
    }
  }

  lemma {:induction false} FoundingIs(s: Setup, n: nat, k: nat)
    requires GoodSetup(s) && k < n <= |s.founding|
    ensures s.founding[k] in FoundingListed(s, n)
            && FoundingListed(s, n)[s.founding[k]] == Listed(Founding, s.ladder[k])
  {
    if k < n - 1 { FoundingIs(s, n - 1, k); }
  }

  /** Each change is acted on or refused. */
  lemma {:induction false} EachDecided(s: Setup, changes: seq<Change>)
    requires GoodSetup(s)
    ensures multiset(Usable(s, changes)) + multiset(Refused(s, changes)) == multiset(changes)
    decreases |changes|
  {
    hide Owners, Conflicts;
    if changes != [] {
      EachDecided(s, changes[..|changes| - 1]);
      assert changes == changes[..|changes| - 1] + [changes[|changes| - 1]];
    }
  }

  /** Owners only grow, a configured Price's and every usable change's own plan among them. */
  lemma {:induction false} OwnersHold(s: Setup, changes: seq<Change>)
    requires GoodSetup(s)
    ensures var owners := Owners(s, changes);
            && (forall p :: p in Configured(s) ==> p in owners && owners[p] == Configured(s)[p].plan)
            && (forall c <- Usable(s, changes) ::
                c.from in owners && owners[c.from] == c.plan && c.to in owners && owners[c.to] == c.plan)
    decreases |changes|
  {
    if changes != [] {
      OwnersHold(s, changes[..|changes| - 1]);
    }
  }

  /** Usable changes change no founding Price, make none of one, and give no Price two plans. */
  lemma UsableChanges(s: Setup, changes: seq<Change>)
    requires GoodSetup(s) && GoodChanges(changes)
    ensures forall c <- Usable(s, changes) :: c in changes && c.from !in s.founding && c.to !in s.founding
    ensures forall c, d :: c in Usable(s, changes) && d in Usable(s, changes) && ({c.from, c.to} * {d.from, d.to} != {}) ==> c.plan == d.plan
  {
    OwnersHold(s, changes);
    UsableFrom(s, changes);
    var owners := Owners(s, changes);
    forall p | p in s.founding ensures p in owners && owners[p] == Founding {
      var k :| 0 <= k < |s.founding| && s.founding[k] == p;
      FoundingIs(s, |s.founding|, k);
    }
    forall c, d | c in Usable(s, changes) && d in Usable(s, changes) && ({c.from, c.to} * {d.from, d.to} != {})
        ensures c.plan == d.plan {
      var p :| p in {c.from, c.to} * {d.from, d.to};
      assert owners[p] == c.plan && owners[p] == d.plan;
    }
  }

  lemma {:induction false} UsableFrom(s: Setup, changes: seq<Change>)
    requires GoodSetup(s)
    ensures forall c <- Usable(s, changes) :: c in changes
    decreases |changes|
  {
    if changes != [] { UsableFrom(s, changes[..|changes| - 1]); }
  }

  /** A later change never makes an earlier one usable or not. */
  lemma {:induction false} UsableStays(s: Setup, changes: seq<Change>, more: seq<Change>)
    requires GoodSetup(s)
    ensures Usable(s, changes) <= Usable(s, changes + more)
    decreases |more|
  {
    if more == [] {
      assert changes + more == changes;
    } else {
      UsableStays(s, changes, more[..|more| - 1]);
      assert (changes + more)[..|changes + more| - 1] == changes + more[..|more| - 1];
    }
  }

  /** The plan a configured Price is of. */
  predicate ConfiguredAs(s: Setup, p: Price, plan: Plan) {
    || (p == s.monthly && plan == Monthly) || (p == s.yearly && plan == Yearly) || (p in s.founding && plan == Founding)
  }

  /** The Price is another plan's: configured so, or named by a change of it acted on before. */
  predicate OfAnother(s: Setup, usable: seq<Change>, p: Price, plan: Plan) {
    || (exists other :: ConfiguredAs(s, p, other) && other != plan)
    || (exists c :: c in usable && (c.from == p || c.to == p) && c.plan != plan)
  }

  lemma ConfiguredIff(s: Setup, p: Price, plan: Plan)
    requires GoodSetup(s)
    ensures ConfiguredAs(s, p, plan) <==> p in Configured(s) && Configured(s)[p].plan == plan
  {
    ConfiguredIs(s, |s.founding|);
    if p in s.founding {
      var k :| 0 <= k < |s.founding| && s.founding[k] == p;
      FoundingIs(s, |s.founding|, k);
    }
  }

  /** A Price's owner is the plan it is configured for, or that of a change acted on. */
  lemma {:induction false} OwnersFrom(s: Setup, changes: seq<Change>, p: Price)
    requires GoodSetup(s)
    ensures var owners := Owners(s, changes);
            p in owners ==> ConfiguredAs(s, p, owners[p])
                            || exists c :: c in Usable(s, changes) && (c.from == p || c.to == p) && c.plan == owners[p]
    decreases |changes|
  {
    hide Configured, ConfiguredAs;
    if changes == [] {
      if p in Owners(s, []) { ConfiguredIff(s, p, Owners(s, [])[p]); }
    } else {
      var earlier, last := changes[..|changes| - 1], changes[|changes| - 1];
      OwnersFrom(s, earlier, p);
      if !Conflicts(Owners(s, earlier), last) {
        assert Usable(s, changes) == Usable(s, earlier) + [last];
        assert last in Usable(s, changes);
      }
    }
  }

  /**
   * A change is acted on exactly when neither of its Prices is another plan's: none configured for another, nor named
   * by a change of another acted on before it. Otherwise it is refused.
   */
  lemma UsableExactly(s: Setup, changes: seq<Change>, c: Change)
    requires GoodSetup(s)
    ensures var usable := Usable(s, changes);
            var refused := Refused(s, changes);
            if OfAnother(s, usable, c.from, c.plan) || OfAnother(s, usable, c.to, c.plan)
            then Usable(s, changes + [c]) == usable && Refused(s, changes + [c]) == refused + [c]
            else Usable(s, changes + [c]) == usable + [c] && Refused(s, changes + [c]) == refused
  {
    assert (changes + [c])[..|changes|] == changes;
    AnotherOwns(s, changes, c.from, c.plan);
    AnotherOwns(s, changes, c.to, c.plan);
    hide OfAnother, Owners;
    assert Usable(s, changes) + [] == Usable(s, changes) && Refused(s, changes) + [] == Refused(s, changes);
  }

  lemma AnotherOwns(s: Setup, changes: seq<Change>, p: Price, plan: Plan)
    requires GoodSetup(s)
    ensures var owners := Owners(s, changes);
            OfAnother(s, Usable(s, changes), p, plan) <==> p in owners && owners[p] != plan
  {
    var owners := Owners(s, changes);
    OwnersHold(s, changes);
    OwnersFrom(s, changes, p);
    hide Owners, Usable, ConfiguredAs, Configured;
    forall other ensures ConfiguredAs(s, p, other) <==> p in Configured(s) && Configured(s)[p].plan == other {
      ConfiguredIff(s, p, other);
    }
  }

  lemma {:induction false} AddedIs(prices: map<Price, Listed>, usable: seq<Change>, newSide: bool)
    ensures var r := Added(prices, usable, newSide);
            && (forall p :: p in prices ==> p in r && r[p] == prices[p])
            && (forall c <- usable :: (if newSide then c.to else c.from) in r)
            && (forall p :: p in r && p !in prices ==>
                exists c :: c in usable && p == (if newSide then c.to
                    else c.from) && r[p] == Listed(c.plan, if newSide then c.toUsd else c.fromUsd))
  {
    if usable != [] {
      AddedIs(prices, usable[..|usable| - 1], newSide);
      assert usable[|usable| - 1] in usable;
    }
  }

  /** Every recognized Price's plan is its owner's; configured ones keep their published amounts. */
  lemma CatalogPlans(s: Setup, changes: seq<Change>)
    requires GoodSetup(s)
    ensures var catalog := CatalogOf(s, changes);
            && (forall p :: p in Configured(s) ==> p in catalog.prices && catalog.prices[p] == Configured(s)[p])
            && (forall c <- catalog.usable :: c.from in catalog.prices && c.to in catalog.prices
                  && catalog.prices[c.from].plan == c.plan && catalog.prices[c.to].plan == c.plan)
  {
    var usable := Usable(s, changes);
    var owners := Owners(s, changes);
    var withNew := Added(Configured(s), usable, true);
    AddedIs(Configured(s), usable, true);
    AddedIs(withNew, usable, false);
    OwnersHold(s, changes);
    forall p | p in Added(withNew, usable, false) && p in owners
        ensures Added(withNew, usable, false)[p].plan == owners[p] {
    }
  }

  function Side(c: Change, newSide: bool): Price {
    if newSide then c.to else c.from
  }

  /** `usable[i]` is the first change with `p` on its side. */
  predicate FirstOf(usable: seq<Change>, i: nat, p: Price, newSide: bool) {
    i < |usable| && Side(usable[i], newSide) == p && forall j :: 0 <= j < i ==> Side(usable[j], newSide) != p
  }

  /** The first change with a Price on a side decides it, unless it is there before. */
  lemma {:induction false} AddedFirst(prices: map<Price, Listed>, usable: seq<Change>, newSide: bool, i: nat, p: Price)
    requires p !in prices && FirstOf(usable, i, p, newSide)
    ensures var r := Added(prices, usable, newSide);
            p in r && r[p] == Listed(usable[i].plan, if newSide then usable[i].toUsd else usable[i].fromUsd)
    decreases |usable|
  {
    var n := |usable| - 1;
    if i < n {
      AddedFirst(prices, usable[..n], newSide, i, p);
    } else {
      AddedIs(prices, usable[..n], newSide);
      assert forall c <- usable[..n] :: Side(c, newSide) != p;
    }
  }

  /**
   * A Price not configured charges what the earliest usable change that moves to it says; of one only moved
   * from, what the earliest that moves from it says of its old Price.
   */
  lemma CatalogAmounts(s: Setup, changes: seq<Change>, p: Price)
    requires GoodSetup(s) && p !in Configured(s)
    ensures var catalog := CatalogOf(s, changes);
            && (p in catalog.prices <==> exists c <- catalog.usable :: p == c.to || p == c.from)
            && (forall i: nat :: FirstOf(catalog.usable, i, p, true) ==>
                  p in catalog.prices && catalog.prices[p].usd == catalog.usable[i].toUsd)
            && ((forall c <- catalog.usable :: p != c.to) ==>
                  forall i: nat :: FirstOf(catalog.usable, i, p, false) ==>
                    p in catalog.prices && catalog.prices[p].usd == catalog.usable[i].fromUsd)
  {
    var usable := Usable(s, changes);
    var withNew := Added(Configured(s), usable, true);
    AddedIs(Configured(s), usable, true);
    AddedIs(withNew, usable, false);
    forall i: nat | FirstOf(usable, i, p, true) ensures p in withNew && withNew[p].usd == usable[i].toUsd {
      AddedFirst(Configured(s), usable, true, i, p);
    }
    if forall c <- usable :: p != c.to {
      forall i: nat | FirstOf(usable, i, p, false)
        ensures p in Added(withNew, usable, false) && Added(withNew, usable, false)[p].usd == usable[i].fromUsd
      {
        AddedFirst(withNew, usable, false, i, p);
      }
    }
  }
}
