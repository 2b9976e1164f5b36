/**
 * Price changes: each renewal's notice recorded, sent and stamped, then the subscription moved at Stripe,
 * from a copy of Stripe's subscription that lags it, while it renews.
 */
module PriceNotices {
  import opened Wrappers
  import opened PriceCatalog

  /** Days count in one unit of time, `day` of it long. */
  datatype Terms = Terms(day: nat, minDays: nat, noticeDays: nat)

  /** A subscription's price, period's end and whether it renews then. */
  datatype Held = Held(price: Price, periodEnd: nat, renews: bool)

  /** As Stripe has it and as last synchronized; `bought` is the Price it was bought at. */
  datatype Subscription = Subscription(bought: Price, stripe: Held, local: Held)

  datatype Notice = Notice(subscription: nat, change: Change, renewsAt: nat, leased: bool, mailedAt: Option<nat>,
    sentAt: Option<nat>, applied: bool)

  datatype Charge = Charge(subscription: nat, price: Price, at: nat)

  /** One notice's change being applied, by what has been done of it. */
  datatype Stage = Selected | Checked | Updated | Over

  datatype Apply = Apply(notice: nat, stage: Stage)

  datatype World = World(now: nat, changes: seq<Change>, subscriptions: seq<Subscription>, notices: seq<Notice>,
    applies: seq<Apply>, charges: seq<Charge>)

  datatype Step = Schedule(change: Change) | Buy(price: Price, periodEnd: nat) | Sync(s: nat)
    | Renew(s: nat, until: nat) | SetRenews(s: nat, renews: bool)
    | Record(s: nat, change: Change) | Lease(n: nat) | Mail(n: nat) | Stamp(n: nat)
    | Select(n: nat) | Check(a: nat) | Update(a: nat) | Settle(a: nat) | Tick(now: nat)

  /** How long before its renewal a notice is still sent: a day more than it must be. */
  function SendBy(t: Terms): nat {
    (t.minDays + 1) * t.day
  }

  predicate InTime(t: Terms, sentAt: Option<nat>, renewsAt: nat) {
    sentAt.Some? && sentAt.value + t.minDays * t.day <= renewsAt
  }

  /** Whether the synchronized copy still renews then on the change's old Price. */
  predicate Standing(w: World, n: Notice) {
    && n.subscription < |w.subscriptions|
    && w.subscriptions[n.subscription].local == Held(n.change.from, n.renewsAt, true)
  }

  predicate CanStep(s: Setup, t: Terms, w: World, step: Step)
    requires GoodSetup(s)
  {
    match step
    case Schedule(change) => GoodChange(change)
    case Buy(_, _) => true
    case Sync(i) => i < |w.subscriptions|
    case Renew(i, until) =>
      && i < |w.subscriptions| && w.subscriptions[i].stripe.renews
      && w.subscriptions[i].stripe.periodEnd <= w.now && w.subscriptions[i].stripe.periodEnd < until
    case SetRenews(i, _) => i < |w.subscriptions|
    case Record(i, change) =>
      && i < |w.subscriptions| && change in Usable(s, w.changes)
      && var held := w.subscriptions[i].local;
         && held.renews && held.price == change.from && held.periodEnd >= change.effectiveAt
         && w.now + SendBy(t) < held.periodEnd <= w.now + t.noticeDays * t.day
         && forall k :: 0 <= k < |w.notices| ==>
             !(w.notices[k].subscription == i && w.notices[k].renewsAt == held.periodEnd)
    case Lease(n) =>
      && n < |w.notices| && w.notices[n].sentAt.None? && Standing(w, w.notices[n])
      && w.notices[n].change in Usable(s, w.changes) && w.now + SendBy(t) < w.notices[n].renewsAt
    case Mail(n) => n < |w.notices| && w.notices[n].leased
    case Stamp(n) => n < |w.notices| && w.notices[n].leased && w.notices[n].mailedAt.Some?
    case Select(n) =>
      && n < |w.notices| && !w.notices[n].applied && InTime(t, w.notices[n].sentAt, w.notices[n].renewsAt)
      && Standing(w, w.notices[n]) && w.notices[n].change in Usable(s, w.changes) && w.now < w.notices[n].renewsAt
    case Check(a) => a < |w.applies| && w.applies[a].stage.Selected?
    case Update(a) => a < |w.applies| && w.applies[a].stage.Checked?
    case Settle(a) => a < |w.applies| && w.applies[a].stage.Updated?
    case Tick(now) => w.now <= now
  }

  /** What applying finds and changes, by indices that hold in every run. */
  predicate Indexed(w: World) {
    && (forall a :: 0 <= a < |w.applies| ==> w.applies[a].notice < |w.notices|)
    && (forall n :: 0 <= n < |w.notices| ==> w.notices[n].subscription < |w.subscriptions|)
  }

  function Next(s: Setup, t: Terms, w: World, step: Step): World
    requires GoodSetup(s) && Indexed(w) && CanStep(s, t, w, step)
  {
    match step
    case Schedule(change) => w.(changes := w.changes + [change])
    case Buy(price, periodEnd) => w.(subscriptions := w.subscriptions
        + [Subscription(price, Held(price, periodEnd, true), Held(price, periodEnd, true))])
    case Sync(i) => w.(subscriptions := w.subscriptions[i := w.subscriptions[i].(local := w.subscriptions[i].stripe)])
    case Renew(i, until) =>
      var held := w.subscriptions[i].stripe;
      w.(subscriptions := w.subscriptions[i := w.subscriptions[i].(stripe := held.(periodEnd := until))],
         charges := w.charges + [Charge(i, held.price, held.periodEnd)])
    case SetRenews(i, renews) => w.(subscriptions :=
        w.subscriptions[i := w.subscriptions[i].(stripe := w.subscriptions[i].stripe.(renews := renews))])
    case Record(i, change) =>
      w.(notices := w.notices + [Notice(i, change, w.subscriptions[i].local.periodEnd, false, None, None, false)])
    case Lease(n) => w.(notices := w.notices[n := w.notices[n].(leased := true)])
    case Mail(n) => w.(notices := w.notices[n := w.notices[n].(mailedAt := if w.notices[n].mailedAt.Some?
        then w.notices[n].mailedAt else Some(w.now))])
    case Stamp(n) => w.(notices := w.notices[n := w.notices[n].(sentAt := Some(w.now))])
    case Select(n) => w.(applies := w.applies + [Apply(n, Selected)])
    case Check(a) =>
      var n := w.notices[w.applies[a].notice];
      var held := w.subscriptions[n.subscription].stripe;
      w.(applies := w.applies[a := w.applies[a].(stage := if held == Held(n.change.from, n.renewsAt, true) then Checked
          else Over)])
    case Update(a) =>
      var n := w.notices[w.applies[a].notice];
      var sub := w.subscriptions[n.subscription];
      w.(applies := w.applies[a := w.applies[a].(stage := Updated)],
         subscriptions := w.subscriptions[n.subscription := sub.(stripe := sub.stripe.(price := n.change.to))])
    case Settle(a) =>
      var n := w.applies[a].notice;
      w.(applies := w.applies[a := w.applies[a].(stage := Over)],
          notices := w.notices[n := w.notices[n].(applied := true)])
    case Tick(now) => w.(now := now)
  }

  // --- What every run keeps -------------------------------------------------------------------------

  predicate MailedBy(t: Terms, n: Notice, at: nat) {
    n.mailedAt.Some? && n.mailedAt.value + t.minDays * t.day <= at
  }

  /**
   * A notice of a move to `price`, mailed in time and not too early for a renewal from its date on, no later
   * than `at`.
   */
  predicate Noticed(t: Terms, n: Notice, subscription: nat, price: Price, at: nat) {
    && n.subscription == subscription && n.change.to == price && n.change.effectiveAt <= n.renewsAt <= at
    && MailedBy(t, n, n.renewsAt) && n.renewsAt <= n.mailedAt.value + t.noticeDays * t.day
  }

  predicate WasNoticed(t: Terms, w: World, subscription: nat, price: Price, at: nat) {
    exists k :: 0 <= k < |w.notices| && Noticed(t, w.notices[k], subscription, price, at)
  }

  predicate NoticeSound(s: Setup, t: Terms, w: World, n: Notice)
    requires GoodSetup(s)
  {
    && n.change.effectiveAt <= n.renewsAt <= w.now + t.noticeDays * t.day
    && (n.mailedAt.Some? ==> n.renewsAt <= n.mailedAt.value + t.noticeDays * t.day)
    && n.subscription < |w.subscriptions| && n.change in Usable(s, w.changes)
    && w.subscriptions[n.subscription].bought !in s.founding
    && (n.sentAt.Some? ==> n.mailedAt.Some? && n.mailedAt.value <= n.sentAt.value)
    && (n.mailedAt.Some? ==> n.mailedAt.value <= w.now)
  }

  /** Its renewal is one the notice was in time for, and Stripe's period has not gone back before it. */
  predicate ApplySound(t: Terms, w: World, a: Apply) {
    && a.notice < |w.notices| && w.notices[a.notice].subscription < |w.subscriptions|
    && MailedBy(t, w.notices[a.notice], w.notices[a.notice].renewsAt)
    && (a.stage.Checked? || a.stage.Updated? ==>
        w.subscriptions[w.notices[a.notice].subscription].stripe.periodEnd >= w.notices[a.notice].renewsAt)
  }

  /** At its price as bought, or moved by a notice in time for its next renewal; a founding one never moved. */
  predicate HeldSound(s: Setup, t: Terms, w: World, i: nat, held: Held)
    requires i < |w.subscriptions|
  {
    var sub := w.subscriptions[i];
    && (held.price != sub.bought ==> WasNoticed(t, w, i, held.price, held.periodEnd))
    && (sub.bought in s.founding ==> held.price == sub.bought)
  }

  predicate ChargeSound(s: Setup, t: Terms, w: World, c: Charge) {
    && c.subscription < |w.subscriptions|
    && (c.price != w.subscriptions[c.subscription].bought ==> WasNoticed(t, w, c.subscription, c.price, c.at))
    && (w.subscriptions[c.subscription].bought in s.founding ==> c.price == w.subscriptions[c.subscription].bought)
  }

  predicate Sound(s: Setup, t: Terms, w: World)
    requires GoodSetup(s)
  {
    && GoodChanges(w.changes)
    && (forall k :: 0 <= k < |w.notices| ==> NoticeSound(s, t, w, w.notices[k]))
    && (forall a :: 0 <= a < |w.applies| ==> ApplySound(t, w, w.applies[a]))
    && (forall i :: 0 <= i < |w.subscriptions| ==>
          HeldSound(s, t, w, i, w.subscriptions[i].stripe) && HeldSound(s, t, w, i, w.subscriptions[i].local)
          && w.subscriptions[i].local.periodEnd <= w.subscriptions[i].stripe.periodEnd)
    && (forall c :: 0 <= c < |w.charges| ==> ChargeSound(s, t, w, w.charges[c]))
  }

  /** What no step undoes. */
  predicate NoticeGrew(a: Notice, b: Notice) {
    a.subscription == b.subscription && a.change == b.change && a.renewsAt == b.renewsAt
        && (a.mailedAt.Some? ==> b.mailedAt == a.mailedAt)
  }

  predicate Grew(w: World, v: World) {
    && w.changes <= v.changes && w.now <= v.now && |w.subscriptions| <= |v.subscriptions| && |w.notices| <= |v.notices|
    && (forall i :: 0 <= i < |w.subscriptions| ==>
          v.subscriptions[i].bought == w.subscriptions[i].bought
              && w.subscriptions[i].stripe.periodEnd <= v.subscriptions[i].stripe.periodEnd)
    && (forall k :: 0 <= k < |w.notices| ==> NoticeGrew(w.notices[k], v.notices[k]))
  }

  lemma NoticedStill(t: Terms, w: World, v: World, subscription: nat, price: Price, at: nat, later: nat)
    requires Grew(w, v) && WasNoticed(t, w, subscription, price, at) && at <= later
    ensures WasNoticed(t, v, subscription, price, later)
  {
    var k :| 0 <= k < |w.notices| && Noticed(t, w.notices[k], subscription, price, at);
    assert NoticeGrew(w.notices[k], v.notices[k]);
    assert Noticed(t, v.notices[k], subscription, price, later);
  }

  lemma HeldStill(s: Setup, t: Terms, w: World, v: World, i: nat, held: Held, later: nat)
    requires Grew(w, v) && i < |w.subscriptions| && HeldSound(s, t, w, i, held) && held.periodEnd <= later
    ensures HeldSound(s, t, v, i, held.(periodEnd := later))
  {
    if held.price != w.subscriptions[i].bought { NoticedStill(t, w, v, i, held.price, held.periodEnd, later); }
  }

  lemma ChargeStill(s: Setup, t: Terms, w: World, v: World, c: Charge)
    requires Grew(w, v) && ChargeSound(s, t, w, c)
    ensures ChargeSound(s, t, v, c)
  {
    if c.price != w.subscriptions[c.subscription].bought { NoticedStill(t, w, v, c.subscription, c.price, c.at, c.at); }
  }

  lemma ApplyStill(t: Terms, w: World, v: World, a: Apply)
    requires Grew(w, v) && ApplySound(t, w, a)
    ensures ApplySound(t, v, a)
  {
    assert NoticeGrew(w.notices[a.notice], v.notices[a.notice]);
  }

  lemma NoticeStill(s: Setup, t: Terms, w: World, v: World, n: Notice)
    requires GoodSetup(s) && Grew(w, v) && NoticeSound(s, t, w, n)
    ensures NoticeSound(s, t, v, n)
  {
    UsableStays(s, w.changes, v.changes[|w.changes|..]);
    assert v.changes == w.changes + v.changes[|w.changes|..];
  }

  lemma SoundIndexed(s: Setup, t: Terms, w: World)
    requires GoodSetup(s) && Sound(s, t, w)
    ensures Indexed(w)
  {
    assert forall n :: 0 <= n < |w.notices| ==> NoticeSound(s, t, w, w.notices[n]);
    assert forall a :: 0 <= a < |w.applies| ==> ApplySound(t, w, w.applies[a]);
  }

  lemma NextGrew(s: Setup, t: Terms, w: World, step: Step)
    requires GoodSetup(s) && Indexed(w) && CanStep(s, t, w, step)
    ensures Grew(w, Next(s, t, w, step))
  {
    hide Usable, Standing, InTime;
  }

  /** No usable change's notice is a founding subscription's. */
  lemma NeverFounding(s: Setup, t: Terms, w: World, i: nat, change: Change)
    requires GoodSetup(s) && Sound(s, t, w) && i < |w.subscriptions| && change in Usable(s, w.changes)
    requires w.subscriptions[i].local.price == change.from
    ensures w.subscriptions[i].bought !in s.founding
  {
    UsableChanges(s, w.changes);
    assert HeldSound(s, t, w, i, w.subscriptions[i].local);
  }

  lemma NoticesNext(s: Setup, t: Terms, w: World, step: Step)
    requires GoodSetup(s) && Sound(s, t, w) && Indexed(w) && CanStep(s, t, w, step)
    ensures var v := Next(s, t, w, step); forall k :: 0 <= k < |v.notices| ==> NoticeSound(s, t, v, v.notices[k])
  {
    hide HeldSound, ChargeSound, ApplySound;
    var v := Next(s, t, w, step);
    NextGrew(s, t, w, step);
    forall k | 0 <= k < |v.notices| ensures NoticeSound(s, t, v, v.notices[k]) {
      if k < |w.notices| {
        NoticeStill(s, t, w, v, w.notices[k]);
      } else {
        NeverFounding(s, t, w, step.s, step.change);
      }
    }
  }

  lemma AppliesNext(s: Setup, t: Terms, w: World, step: Step)
    requires GoodSetup(s) && Sound(s, t, w) && Indexed(w) && CanStep(s, t, w, step)
    ensures var v := Next(s, t, w, step); forall a :: 0 <= a < |v.applies| ==> ApplySound(t, v, v.applies[a])
  {
    var v := Next(s, t, w, step);
    NextGrew(s, t, w, step);
    if step.Select? { assert NoticeSound(s, t, w, w.notices[step.n]); }
    hide HeldSound, ChargeSound, Usable, Grew;
    forall a | 0 <= a < |v.applies| ensures ApplySound(t, v, v.applies[a]) {
      if a < |w.applies| {
        ApplyStill(t, w, v, w.applies[a]);
      }
    }
  }

  lemma SubscriptionsNext(s: Setup, t: Terms, w: World, step: Step, i: nat)
    requires GoodSetup(s) && Sound(s, t, w) && Indexed(w) && CanStep(s, t, w, step)
             && i < |Next(s, t, w, step).subscriptions|
    ensures var v := Next(s, t, w, step);
            && HeldSound(s, t, v, i, v.subscriptions[i].stripe) && HeldSound(s, t, v, i, v.subscriptions[i].local)
            && v.subscriptions[i].local.periodEnd <= v.subscriptions[i].stripe.periodEnd
  {
    var v := Next(s, t, w, step);
    NextGrew(s, t, w, step);
    if i < |w.subscriptions| {
      var was, now := w.subscriptions[i], v.subscriptions[i];
      HeldStill(s, t, w, v, i, was.stripe, now.stripe.periodEnd);
      HeldStill(s, t, w, v, i, was.stripe, was.stripe.periodEnd);
      HeldStill(s, t, w, v, i, was.local, was.local.periodEnd);
      if step.Update? && w.notices[w.applies[step.a].notice].subscription == i {
        UpdateNoticed(s, t, w, v, step.a);
      }
    }
  }

  /** A subscription is moved only by a notice in time for its next renewal. */
  lemma UpdateNoticed(s: Setup, t: Terms, w: World, v: World, a: nat)
    requires GoodSetup(s) && Sound(s, t, w) && Indexed(w) && CanStep(s, t, w, Update(a))
             && v == Next(s, t, w, Update(a))
    ensures var i := w.notices[w.applies[a].notice].subscription;
            HeldSound(s, t, v, i, v.subscriptions[i].stripe)
  {
    var n := w.notices[w.applies[a].notice];
    var i := n.subscription;
    assert ApplySound(t, w, w.applies[a]) && NoticeSound(s, t, w, n);
    assert v.notices == w.notices;
    assert Noticed(t, v.notices[w.applies[a].notice], i, n.change.to, v.subscriptions[i].stripe.periodEnd);
  }

  lemma ChargesNext(s: Setup, t: Terms, w: World, step: Step)
    requires GoodSetup(s) && Sound(s, t, w) && Indexed(w) && CanStep(s, t, w, step)
    ensures var v := Next(s, t, w, step); forall c :: 0 <= c < |v.charges| ==> ChargeSound(s, t, v, v.charges[c])
  {
    var v := Next(s, t, w, step);
    NextGrew(s, t, w, step);
    forall c | 0 <= c < |v.charges| ensures ChargeSound(s, t, v, v.charges[c]) {
      if c < |w.charges| {
        ChargeStill(s, t, w, v, w.charges[c]);
      } else {
        var held := w.subscriptions[step.s].stripe;
        HeldStill(s, t, w, v, step.s, held, held.periodEnd);
      }
    }
  }

  lemma NextSound(s: Setup, t: Terms, w: World, step: Step)
    requires GoodSetup(s) && Sound(s, t, w) && Indexed(w) && CanStep(s, t, w, step)
    ensures Sound(s, t, Next(s, t, w, step))
  {
    NoticesNext(s, t, w, step);
    AppliesNext(s, t, w, step);
    ChargesNext(s, t, w, step);
    var v := Next(s, t, w, step);
    forall i | 0 <= i < |v.subscriptions|
      ensures HeldSound(s, t, v, i, v.subscriptions[i].stripe) && HeldSound(s, t, v, i, v.subscriptions[i].local)
              && v.subscriptions[i].local.periodEnd <= v.subscriptions[i].stripe.periodEnd
    {
      SubscriptionsNext(s, t, w, step, i);
    }
    hide NoticeSound, HeldSound, ApplySound, ChargeSound, Usable;
  }

  function Run(s: Setup, t: Terms, w: World, steps: seq<Step>): World
    requires GoodSetup(s) && Sound(s, t, w)
    decreases |steps|
  {
    if steps == [] then w
    else
      SoundIndexed(s, t, w);
      if CanStep(s, t, w, steps[0]) then NextSound(s, t, w, steps[0]); Run(s, t, Next(s, t, w, steps[0]), steps[1..])
      else Run(s, t, w, steps[1..])
  }

  lemma {:induction false} RunSound(s: Setup, t: Terms, w: World, steps: seq<Step>)
    requires GoodSetup(s) && Sound(s, t, w)
    ensures Sound(s, t, Run(s, t, w, steps))
    decreases |steps|
  {
    hide Sound, CanStep;
    if steps != [] {
      SoundIndexed(s, t, w);
      if CanStep(s, t, w, steps[0]) {
        NextSound(s, t, w, steps[0]);
        RunSound(s, t, Next(s, t, w, steps[0]), steps[1..]);
      } else {
        RunSound(s, t, w, steps[1..]);
      }
    }
  }

  const Empty := World(0, [], [], [], [], [])

  /**
   * Whatever runs at once: a renewal charges a Price other than the one its subscription was bought at only
   * if that change's notice went out the least notice before it; and a subscription bought at a founding
   * Price is never noticed, moved or charged another.
   */
  lemma NoticedBeforeCharged(s: Setup, t: Terms, steps: seq<Step>)
    requires GoodSetup(s)
    ensures Sound(s, t, Empty)
    ensures var w := Run(s, t, Empty, steps);
            && (forall c :: 0 <= c < |w.charges| ==> ChargeSound(s, t, w, w.charges[c]))
            && (forall n :: 0 <= n < |w.notices| ==>
                w.notices[n].subscription < |w.subscriptions|
                    && w.subscriptions[w.notices[n].subscription].bought !in s.founding)
            && (forall i :: 0 <= i < |w.subscriptions| && w.subscriptions[i].bought in s.founding ==>
                w.subscriptions[i].stripe.price == w.subscriptions[i].bought)
  {
    RunSound(s, t, Empty, steps);
    var w := Run(s, t, Empty, steps);
    forall n | 0 <= n < |w.notices|
        ensures w.notices[n].subscription < |w.subscriptions|
                && w.subscriptions[w.notices[n].subscription].bought !in s.founding {
      assert NoticeSound(s, t, w, w.notices[n]);
    }
    forall i | 0 <= i < |w.subscriptions| && w.subscriptions[i].bought in s.founding
        ensures w.subscriptions[i].stripe.price == w.subscriptions[i].bought {
      assert HeldSound(s, t, w, i, w.subscriptions[i].stripe);
    }
  }

  // --- An ordinary change ---------------------------------------------------------------------------

  /**
   * A change is applied only to a subscription Stripe has renewing then at the change's old Price; no other is
   * moved.
   */
  lemma CheckExactly(s: Setup, t: Terms, w: World, a: nat)
    requires GoodSetup(s) && Indexed(w) && CanStep(s, t, w, Check(a))
    ensures var n := w.notices[w.applies[a].notice];
            var held := w.subscriptions[n.subscription].stripe;
            Next(s, t, w, Check(a)) == w.(applies := w.applies[a := Apply(w.applies[a].notice,
              if held.price == n.change.from && held.periodEnd == n.renewsAt && held.renews then Checked else Over)])
  {
  }

  lemma RunOne(s: Setup, t: Terms, w: World, steps: seq<Step>, k: nat)
    requires GoodSetup(s) && Sound(s, t, w) && Indexed(w) && k < |steps| && CanStep(s, t, w, steps[k])
    ensures var next := Next(s, t, w, steps[k]);
            && Sound(s, t, next) && Indexed(next)
            && Run(s, t, w, steps[k..]) == Run(s, t, next, steps[k + 1..])
            && (k == 0 ==> Run(s, t, w, steps) == Run(s, t, next, steps[1..]))
            && (k + 1 == |steps| ==> Run(s, t, next, steps[k + 1..]) == next)
  {
    assert steps[k..][1..] == steps[k + 1..] && steps[0..] == steps;
    NextSound(s, t, w, steps[k]);
    SoundIndexed(s, t, Next(s, t, w, steps[k]));
    hide Sound, CanStep, Next;
  }

  /** A subscription due a change's notice: on its old Price, renewing from its date on, in time to be told. */
  predicate Due(s: Setup, t: Terms, w: World, i: nat, c: Change)
    requires GoodSetup(s)
  {
    && i < |w.subscriptions| && c in Usable(s, w.changes)
    && w.subscriptions[i].stripe == w.subscriptions[i].local
    && var held := w.subscriptions[i].local;
       && held == Held(c.from, held.periodEnd, true) && c.effectiveAt <= held.periodEnd
       && w.now + (t.minDays + 1) * t.day < held.periodEnd <= w.now + t.noticeDays * t.day
       && forall k :: 0 <= k < |w.notices| ==>
            w.notices[k].subscription != i || w.notices[k].renewsAt != held.periodEnd
  }

  /** The notice of it recorded, leased, mailed and stamped. */
  lemma Tells(s: Setup, t: Terms, w: World, i: nat, c: Change, steps: seq<Step>)
    requires GoodSetup(s) && Sound(s, t, w) && Indexed(w) && Due(s, t, w, i, c)
    requires |steps| >= 4 && steps[..4] == [Record(i, c), Lease(|w.notices|), Mail(|w.notices|), Stamp(|w.notices|)]
    ensures var v := w.(notices := w.notices + [Notice(i, c, w.subscriptions[i].local.periodEnd, true, Some(w.now),
                                                       Some(w.now), false)]);
            Sound(s, t, v) && Indexed(v) && Run(s, t, w, steps) == Run(s, t, v, steps[4..])
  {
    var n := |w.notices|;
    var end := w.subscriptions[i].local.periodEnd;
    assert steps[0] == steps[..4][0] && steps[1] == steps[..4][1] && steps[2] == steps[..4][2]
        && steps[3] == steps[..4][3];
    var w1 := w.(notices := w.notices + [Notice(i, c, end, false, None, None, false)]);
    var w2 := w.(notices := w.notices + [Notice(i, c, end, true, None, None, false)]);
    var w3 := w.(notices := w.notices + [Notice(i, c, end, true, Some(w.now), None, false)]);
    var w4 := w.(notices := w.notices + [Notice(i, c, end, true, Some(w.now), Some(w.now), false)]);
    hide Sound, Run, Usable;
    assert CanStep(s, t, w, steps[0]) && Next(s, t, w, steps[0]) == w1;
    assert Indexed(w1) && CanStep(s, t, w1, steps[1]) && Next(s, t, w1, steps[1]) == w2;
    assert Indexed(w2) && CanStep(s, t, w2, steps[2]) && Next(s, t, w2, steps[2]) == w3;
    assert Indexed(w3) && CanStep(s, t, w3, steps[3]) && Next(s, t, w3, steps[3]) == w4;
    hide CanStep, Next, Indexed, Due;
    RunOne(s, t, w, steps, 0);
    RunOne(s, t, w1, steps, 1);
    RunOne(s, t, w2, steps, 2);
    RunOne(s, t, w3, steps, 3);
  }

  /** A notice sent in time, whose subscription is on its change's old Price at Stripe too. */
  predicate Applicable(s: Setup, t: Terms, w: World, n: nat)
    requires GoodSetup(s)
  {
    && n < |w.notices|
    && var notice := w.notices[n];
       && !notice.applied && notice.sentAt.Some? && notice.sentAt.value + t.minDays * t.day <= notice.renewsAt
       && w.now < notice.renewsAt && notice.change in Usable(s, w.changes) && notice.subscription < |w.subscriptions|
       && w.subscriptions[notice.subscription].local == Held(notice.change.from, notice.renewsAt, true)
       && w.subscriptions[notice.subscription].stripe == Held(notice.change.from, notice.renewsAt, true)
  }

  function Applying(w: World, n: nat, stage: Stage): World {
    w.(applies := w.applies + [Apply(n, stage)])
  }

  lemma Checks(s: Setup, t: Terms, w: World, n: nat)
    requires GoodSetup(s) && Indexed(w) && Applicable(s, t, w, n)
    ensures CanStep(s, t, w, Select(n)) && Next(s, t, w, Select(n)) == Applying(w, n, Selected)
    ensures Indexed(Applying(w, n, Selected)) && CanStep(s, t, Applying(w, n, Selected), Check(|w.applies|))
    ensures Next(s, t, Applying(w, n, Selected), Check(|w.applies|)) == Applying(w, n, Checked)
  {
    hide Usable;
  }

  /** The subscription of a notice at its change's new Price. */
  function MovedBy(w: World, n: nat): seq<Subscription>
    requires n < |w.notices| && w.notices[n].subscription < |w.subscriptions|
  {
    var notice := w.notices[n];
    var sub := w.subscriptions[notice.subscription];
    w.subscriptions[notice.subscription := sub.(stripe := sub.stripe.(price := notice.change.to))]
  }

  lemma Updates(s: Setup, t: Terms, w: World, n: nat)
    requires GoodSetup(s) && Indexed(w) && n < |w.notices|
    ensures var checked := Applying(w, n, Checked);
            var updated := Applying(w, n, Updated).(subscriptions := MovedBy(w, n));
            && Indexed(checked) && CanStep(s, t, checked, Update(|w.applies|))
            && Next(s, t, checked, Update(|w.applies|)) == updated
            && Indexed(updated) && CanStep(s, t, updated, Settle(|w.applies|))
            && Next(s, t, updated, Settle(|w.applies|)) ==
               Applying(w, n, Over).(subscriptions := MovedBy(w, n),
                   notices := w.notices[n := w.notices[n].(applied := true)])
  {
    hide Usable;
  }

  /** A notice sent in time, applied: the subscription is moved at Stripe. */
  lemma Moves(s: Setup, t: Terms, w: World, n: nat, steps: seq<Step>, from: nat)
    requires GoodSetup(s) && Sound(s, t, w) && Indexed(w) && Applicable(s, t, w, n)
    requires from + 4 <= |steps| && steps[from] == Select(n) && steps[from + 1] == Check(|w.applies|)
    requires steps[from + 2] == Update(|w.applies|) && steps[from + 3] == Settle(|w.applies|)
    ensures var v := Applying(w, n, Over).(subscriptions := MovedBy(w, n),
                                           notices := w.notices[n := w.notices[n].(applied := true)]);
            Sound(s, t, v) && Indexed(v) && Run(s, t, w, steps[from..]) == Run(s, t, v, steps[from + 4..])
  {
    Checks(s, t, w, n);
    Updates(s, t, w, n);
    hide Sound, Run, Usable, CanStep, Next, Indexed, Applying, MovedBy;
    RunOne(s, t, w, steps, from);
    RunOne(s, t, Applying(w, n, Selected), steps, from + 1);
    RunOne(s, t, Applying(w, n, Checked), steps, from + 2);
    RunOne(s, t, Applying(w, n, Updated).(subscriptions := MovedBy(w, n)), steps, from + 3);
  }

  lemma Renews(s: Setup, t: Terms, w: World, i: nat, price: Price, end: nat, until: nat)
    requires GoodSetup(s) && Indexed(w) && i < |w.subscriptions| && w.now <= end < until
    requires w.subscriptions[i].stripe == Held(price, end, true)
    ensures var due := w.(now := end);
            && CanStep(s, t, w, Tick(end)) && Next(s, t, w, Tick(end)) == due && Indexed(due)
            && CanStep(s, t, due, Renew(i, until))
            && Next(s, t, due, Renew(i, until)) ==
               due.(charges := w.charges + [Charge(i, price, end)],
                    subscriptions := w.subscriptions[i := w.subscriptions[i].(stripe := Held(price, until, true))])
  {
  }

  /** Once told of, a change can be applied. */
  lemma ToldApplies(s: Setup, t: Terms, w: World, i: nat, c: Change)
    requires GoodSetup(s) && Due(s, t, w, i, c)
    ensures var notice := Notice(i, c, w.subscriptions[i].local.periodEnd, true, Some(w.now), Some(w.now), false);
            Applicable(s, t, w.(notices := w.notices + [notice]), |w.notices|)
  {
    hide Usable;
  }

  /** The ordinary change of a renewal's price: told of, moved, and then charged as told. */
  lemma ChargedAsTold(s: Setup, t: Terms, w: World, i: nat, c: Change, until: nat)
    requires GoodSetup(s) && Sound(s, t, w) && Indexed(w) && Due(s, t, w, i, c)
    requires until > w.subscriptions[i].local.periodEnd
    ensures var n, a := |w.notices|, |w.applies|;
            var end := w.subscriptions[i].local.periodEnd;
            var steps := [Record(i, c), Lease(n), Mail(n), Stamp(n), Select(n), Check(a), Update(a), Settle(a),
                Tick(end),
                          Renew(i, until)];
            var v := Run(s, t, w, steps);
            && v.charges == w.charges + [Charge(i, c.to, end)]
            && |v.notices| == n + 1 && v.notices[n] == Notice(i, c, end, true, Some(w.now), Some(w.now), true)
            && |v.subscriptions| == |w.subscriptions| && v.subscriptions[i].stripe == Held(c.to, until, true)
  {
    var n, a := |w.notices|, |w.applies|;
    var end := w.subscriptions[i].local.periodEnd;
    var steps := [Record(i, c), Lease(n), Mail(n), Stamp(n), Select(n), Check(a), Update(a), Settle(a), Tick(end),
        Renew(i, until)];
    var notice := Notice(i, c, end, true, Some(w.now), Some(w.now), false);
    var w4 := w.(notices := w.notices + [notice]);
    var w8 := Applying(w4, n, Over).(subscriptions := MovedBy(w4, n),
        notices := w.notices + [notice.(applied := true)]);
    assert w4.notices[n := w4.notices[n].(applied := true)] == w8.notices;
    assert steps[..4] == [Record(i, c), Lease(n), Mail(n), Stamp(n)];
    ToldApplies(s, t, w, i, c);
    assert |w4.applies| == a && w8.subscriptions[i].stripe == Held(c.to, end, true) && w8.now == w.now;
    hide Sound, Run, Usable, CanStep, Next, Indexed, Applicable, Due, InTime, Standing;
    Tells(s, t, w, i, c, steps);
    Moves(s, t, w4, n, steps, 4);
    Renews(s, t, w8, i, c.to, end, until);
    RunOne(s, t, w8, steps, 8);
    RunOne(s, t, w8.(now := end), steps, 9);
  }
}
