/** The conversation theorems of the relay room, over every run from an empty object. */
module RelayTheorems {
  import opened Wrappers
  import opened RelayModel
  import opened RelayConversations

  // --- What the grammars mean, entry by entry -------------------------------------------

  predicate InitOf(e: Entry, clientId: string) {
    e.ToBurrow? && e.clientId == clientId && e.step.Init?
  }

  predicate GoneOf(e: Entry, clientId: string) {
    e.ClientGone? && e.clientId == clientId
  }

  /** Before entry `n`, `clientId` has sent an `init` and not been reported gone since. */
  ghost predicate UnderWay(log: seq<Entry>, clientId: string, n: nat)
    requires n <= |log|
  {
    exists m :: 0 <= m < n && InitOf(log[m], clientId) && forall x :: m < x < n ==> !GoneOf(log[x], clientId)
  }

  predicate NeedsTalk(e: Entry, clientId: string) {
    GoneOf(e, clientId) || (e.ToBurrow? && e.clientId == clientId && !e.step.Init?)
  }

  /** Every later frame and every `client-gone` comes after an `init` not yet reported gone. */
  ghost predicate WellTalked(log: seq<Entry>, clientId: string) {
    forall n :: 0 <= n < |log| && NeedsTalk(log[n], clientId) ==> UnderWay(log, clientId, n)
  }

  lemma UnderWayBefore(log: seq<Entry>, clientId: string, n: nat)
    requires 0 < |log| && n < |log|
    ensures UnderWay(log, clientId, n) <==> UnderWay(log[..|log| - 1], clientId, n)
  {
    var front := log[..|log| - 1];
    assert forall m :: 0 <= m < n ==> log[m] == front[m];
  }

  /** What the last entry makes of a conversation. */
  lemma UnderWayNext(log: seq<Entry>, clientId: string)
    requires log != []
    ensures var last := log[|log| - 1];
            UnderWay(log, clientId, |log|) <==>
                InitOf(last, clientId) || (!GoneOf(last, clientId) && UnderWay(log, clientId, |log| - 1))
  {
    var last := log[|log| - 1];
    if UnderWay(log, clientId, |log| - 1) && !GoneOf(last, clientId) {
      var m :| 0 <= m < |log| - 1 && InitOf(log[m], clientId) && forall x :: m < x < |log| - 1 ==>
          !GoneOf(log[x], clientId);
      assert forall x :: m < x < |log| ==> !GoneOf(log[x], clientId);
    }
  }

  lemma WellTalkedNext(log: seq<Entry>, clientId: string)
    requires log != []
    ensures var front := log[..|log| - 1];
            WellTalked(log, clientId) <==>
            WellTalked(front, clientId) && (NeedsTalk(log[|log| - 1], clientId) ==> UnderWay(front, clientId, |front|))
  {
    var front := log[..|log| - 1];
    forall n | 0 <= n < |log| ensures UnderWay(log, clientId, n) <==> UnderWay(front, clientId, n) {
      UnderWayBefore(log, clientId, n);
    }
    hide UnderWay;
    assert forall n :: 0 <= n < |front| ==> log[n] == front[n];
  }

  lemma {:induction false} TalkMeaning(log: seq<Entry>, clientId: string)
    ensures !TalkOf(log, clientId).Broken? <==> WellTalked(log, clientId)
    ensures !TalkOf(log, clientId).Broken? ==> (TalkOf(log, clientId).Talking? <==> UnderWay(log, clientId, |log|))
  {
    if log != [] {
      hide UnderWay, WellTalked;
      var front := log[..|log| - 1];
      TalkMeaning(front, clientId);
      UnderWayBefore(log, clientId, |front|);
      UnderWayNext(log, clientId);
      WellTalkedNext(log, clientId);
    }
  }

  /** Before entry `n`, the Client's `init` to `burrowId` was routed, and nothing has unbound or rebound it since. */
  ghost predicate BoundAt(log: seq<Entry>, burrowId: string, n: nat)
    requires n <= |log|
  {
    exists m :: 0 <= m < n && log[m] == InitRouted(burrowId) && forall x :: m < x < n ==>
        !log[x].InitRouted? && !log[x].BurrowGone?
  }

  ghost predicate WellHeard(log: seq<Entry>) {
    && (forall n :: 0 <= n < |log| && log[n].FromBurrow? ==> BoundAt(log, log[n].burrowId, n))
    && (forall n :: 0 <= n < |log| && log[n].BurrowGone? ==> exists b :: BoundAt(log, b, n))
  }

  lemma BoundBefore(log: seq<Entry>, burrowId: string, n: nat)
    requires 0 < |log| && n < |log|
    ensures BoundAt(log, burrowId, n) <==> BoundAt(log[..|log| - 1], burrowId, n)
  {
    var front := log[..|log| - 1];
    assert forall m :: 0 <= m < n ==> log[m] == front[m];
  }

  /** What the last entry makes of a binding. */
  lemma BoundNext(log: seq<Entry>, burrowId: string)
    requires log != []
    ensures var last := log[|log| - 1];
            BoundAt(log, burrowId, |log|) <==>
                last == InitRouted(burrowId)
                    || (!last.InitRouted? && !last.BurrowGone? && BoundAt(log, burrowId, |log| - 1))
  {
    var last := log[|log| - 1];
    if BoundAt(log, burrowId, |log| - 1) && !last.InitRouted? && !last.BurrowGone? {
      var m :| 0 <= m < |log| - 1 && log[m] == InitRouted(burrowId) && forall x :: m < x < |log| - 1 ==>
          !log[x].InitRouted? && !log[x].BurrowGone?;
      assert forall x :: m < x < |log| ==> !log[x].InitRouted? && !log[x].BurrowGone?;
    }
  }

  lemma WellHeardNext(log: seq<Entry>)
    requires log != []
    ensures var front := log[..|log| - 1];
            var last := log[|log| - 1];
            WellHeard(log) <==>
            && WellHeard(front)
            && (last.FromBurrow? ==> BoundAt(front, last.burrowId, |front|))
                && (last.BurrowGone? ==> exists b :: BoundAt(front, b, |front|))
  {
    var front := log[..|log| - 1];
    forall b, n | 0 <= n < |log| ensures BoundAt(log, b, n) <==> BoundAt(front, b, n) {
      BoundBefore(log, b, n);
    }
    hide BoundAt;
    assert forall n :: 0 <= n < |front| ==> log[n] == front[n];
  }

  lemma {:induction false} TieMeaning(log: seq<Entry>)
    requires !TieOf(log).Torn?
    ensures WellHeard(log)
    ensures forall b :: TieOf(log) == Tied(b) <==> BoundAt(log, b, |log|)
  {
    if log != [] {
      hide BoundAt;
      var front := log[..|log| - 1];
      var last := log[|log| - 1];
      TieMeaning(front);
      forall b ensures BoundAt(log, b, |front|) == BoundAt(front, b, |front|) {
        BoundBefore(log, b, |front|);
      }
      forall b ensures TieOf(log) == Tied(b) <==> BoundAt(log, b, |log|) {
        BoundNext(log, b);
      }
      WellHeardNext(log);
      assert last.BurrowGone? ==> BoundAt(front, TieOf(front).burrowId, |front|);
      hide WellHeard;
    }
  }

  // --- Runs -----------------------------------------------------------------------------

  predicate GuardedRun(events: seq<Event>)
    requires CanRun(EMPTY, events)
    decreases |events|
  {
    events == [] ||
    (GuardedRun(events[..|events| - 1]) && Guarded(Run(EMPTY, events[..|events| - 1]), events[|events| - 1]))
  }

  lemma {:induction false} RunSound(events: seq<Event>)
    requires CanRun(EMPTY, events)
    ensures Sound(Run(EMPTY, events).sockets)
    decreases |events|
  {
    if events != [] {
      RunSound(events[..|events| - 1]);
      NextKeeps(Run(EMPTY, events[..|events| - 1]), events[|events| - 1]);
    }
  }

  lemma {:induction false} RunCalm(events: seq<Event>)
    requires CanRun(EMPTY, events) && GuardedRun(events)
    ensures Calm(Run(EMPTY, events).sockets)
    decreases |events|
  {
    if events != [] {
      RunCalm(events[..|events| - 1]);
      RunSound(events[..|events| - 1]);
      NextKeeps(Run(EMPTY, events[..|events| - 1]), events[|events| - 1]);
    }
  }

  lemma {:induction false} RunTight(events: seq<Event>)
    requires CanRun(EMPTY, events) && forall n :: 0 <= n < |events| ==> !events[n].LeaveOpen?
    ensures Sound(Run(EMPTY, events).sockets) && Calm(Run(EMPTY, events).sockets) && Tight(Run(EMPTY, events).sockets)
    decreases |events|
  {
    if events != [] {
      RunTight(events[..|events| - 1]);
      NextTight(Run(EMPTY, events[..|events| - 1]), events[|events| - 1]);
    }
  }

  /**
   * In every run: at most one registered socket per Burrow; each registered Client's binding names a
   * Burrow with a socket not retired; and a Client hears a Burrow only while bound to it, and is told
   * a Burrow is gone once for each binding.
   */
  lemma RoutingIsSound(events: seq<Event>)
    requires CanRun(EMPTY, events)
    ensures var ss := Run(EMPTY, events).sockets;
            && (forall i, j :: 0 <= i < |ss| && 0 <= j < |ss| && Registered(ss[i]) && Registered(ss[j]) && ss[i].conn.Burrow? && ss[j].conn.Burrow? && ss[i].conn.burrowId == ss[j].conn.burrowId ==>
                  i == j)
            && Anchored(ss)
            && (forall i :: 0 <= i < |ss| && ss[i].conn.Client? ==> WellHeard(ss[i].log))
            && (forall i, b :: 0 <= i < |ss| && ss[i].conn.Client? && !ss[i].conn.retired ==>
                  (ss[i].conn.bound == Some(b) <==> BoundAt(ss[i].log, b, |ss[i].log|)))
  {
    RunSound(events);
    var ss := Run(EMPTY, events).sockets;
    forall i, j | 0 <= i < |ss| && 0 <= j < |ss| && Registered(ss[i]) && Registered(ss[j]) && ss[i].conn.Burrow? && ss[j].conn.Burrow? && ss[i].conn.burrowId == ss[j].conn.burrowId
      ensures i == j
    {
      assert HoldsBurrow(ss[i], ss[j].conn.burrowId);
    }
    forall i | 0 <= i < |ss| && ss[i].conn.Client?
      ensures WellHeard(ss[i].log)
      ensures forall b :: !ss[i].conn.retired ==> (ss[i].conn.bound == Some(b) <==> BoundAt(ss[i].log, b, |ss[i].log|))
    {
      assert Faithful(ss[i]);
      TieMeaning(ss[i].log);
    }
  }

  /** In every run whose Burrows are admitted only where nothing is left bound, every conversation is in its grammar. */
  lemma ConversationsKept(events: seq<Event>)
    requires CanRun(EMPTY, events) && GuardedRun(events)
    ensures forall j, k :: 0 <= j < |Run(EMPTY, events).sockets| ==> WellTalked(Run(EMPTY, events).sockets[j].log, k)
  {
    RunCalm(events);
    var ss := Run(EMPTY, events).sockets;
    forall j, k | 0 <= j < |ss| ensures WellTalked(ss[j].log, k) {
      TalkMeaning(ss[j].log, k);
    }
  }

  /**
   * In every run in which a socket's close is one step, the same, unguarded; and on a registered
   * Burrow's socket the conversation about a Client is under way exactly while that Client is
   * registered and bound to it, so each one begun has been ended by exactly one `client-gone` once
   * the Client has left.
   */
  lemma ConversationsEnd(events: seq<Event>)
    requires CanRun(EMPTY, events) && forall n :: 0 <= n < |events| ==> !events[n].LeaveOpen?
    ensures var ss := Run(EMPTY, events).sockets;
            && (forall j, k :: 0 <= j < |ss| ==> WellTalked(ss[j].log, k))
            && (forall j, k :: 0 <= j < |ss| && Registered(ss[j]) && ss[j].conn.Burrow? ==>
                  (UnderWay(ss[j].log, k, |ss[j].log|) <==>
                   exists i :: 0 <= i < |ss| && HoldsClient(ss[i], k) && BoundTo(ss[i], ss[j].conn.burrowId)))
  {
    RunTight(events);
    var ss := Run(EMPTY, events).sockets;
    forall j, k | 0 <= j < |ss| ensures WellTalked(ss[j].log, k) {
      TalkMeaning(ss[j].log, k);
    }
    forall j, k | 0 <= j < |ss| && Registered(ss[j]) && ss[j].conn.Burrow?
      ensures UnderWay(ss[j].log, k, |ss[j].log|) <==>
              exists i :: 0 <= i < |ss| && HoldsClient(ss[i], k) && BoundTo(ss[i], ss[j].conn.burrowId)
    {
      TalkMeaning(ss[j].log, k);
    }
  }

  // --- Exactly when a replacement is safe -------------------------------------------------

  ghost predicate InGrammar(ss: seq<Socket>) {
    forall j, k :: 0 <= j < |ss| ==> !TalkOf(ss[j].log, k).Broken?
  }

  /**
   * A turn puts no record out of its grammar while the invariant holds, an unguarded replacement
   * included: what that breaks is a later turn.
   */
  lemma NextInGrammar(r: Room, e: Event)
    requires Enabled(r, e) && Sound(r.sockets) && Calm(r.sockets)
    ensures InGrammar(Next(r, e).sockets)
  {
    if Guarded(r, e) {
      NextKeeps(r, e);
    } else {
      DisplacedKeeps(r.sockets, e.burrowId);
    }
  }

  /**
   * The turn that breaks a conversation after a replacement left `ss[i]` bound: its next frame, or
   * its close handler if it has left.
   */
  function Breaker(r: Room, i: nat, burrowId: string): Event
    requires i < |r.sockets|
  {
    if r.sockets[i].open then Receive(i, Text(ClientFrame(burrowId, Later("transport"), ""), NoFrame)) else Closed(i)
  }

  lemma StrandedFrameBreaks(ss: seq<Socket>, i: nat, b: nat, now: int)
    requires Distinct(ss) && i < |ss| && b < |ss| && Registered(ss[i])
    requires ss[b].conn.Burrow? && BoundTo(ss[i], ss[b].conn.burrowId)
    requires Registered(ss[b]) && ss[b].log == [] && !Silent(ss[b], now)
    ensures TalkOf(AfterClientFrame(ss, i, ss[b].conn.burrowId, Later("transport"), "", now)[b].log,
            ss[i].conn.clientId).Broken?
  {
    var f := FindBurrow(ss, ss[b].conn.burrowId);
    assert HoldsBurrow(ss[f.value], ss[b].conn.burrowId);
    TalkPosted(ss[b].log, ToBurrow(ss[i].conn.clientId, Later("transport"), ""), ss[i].conn.clientId);
  }

  lemma StrandedCloseBreaks(ss: seq<Socket>, i: nat, b: nat)
    requires Distinct(ss) && i < |ss| && b < |ss| && !ss[i].conn.retired && !ss[i].open
    requires ss[b].conn.Burrow? && BoundTo(ss[i], ss[b].conn.burrowId)
    requires Registered(ss[b]) && ss[b].log == []
    ensures TalkOf(AfterClosed(ss, i)[b].log, ss[i].conn.clientId).Broken?
  {
    var marked := MarkRetired(ss, i);
    DistinctKept(ss, marked);
    TellGoneAt(marked, ss[b].conn.burrowId, ss[i].conn.clientId, b);
    TalkPosted(ss[b].log, ClientGone(ss[i].conn.clientId), ss[i].conn.clientId);
  }

  lemma StrandedBreaks(r: Room, i: nat, b: nat)
    requires Distinct(r.sockets) && i < |r.sockets| && b < |r.sockets| && !r.sockets[i].conn.retired
    requires r.sockets[b].conn.Burrow? && BoundTo(r.sockets[i], r.sockets[b].conn.burrowId)
    requires Registered(r.sockets[b]) && r.sockets[b].log == [] && !Silent(r.sockets[b], r.clock)
    ensures Enabled(r, Breaker(r, i, r.sockets[b].conn.burrowId))
    ensures !InGrammar(Next(r, Breaker(r, i, r.sockets[b].conn.burrowId)).sockets)
  {
    if r.sockets[i].open {
      StrandedFrameBreaks(r.sockets, i, b, r.clock);
    } else {
      StrandedCloseBreaks(r.sockets, i, b);
    }
  }

  lemma UnsettledBreaks(r: Room, e: Event) returns (f: Event)
    requires e.OpenBurrow? && Enabled(r, e) && Sound(r.sockets)
    requires BurrowAdmitted(r, e.account, e.burrowId, e.read) && !Settled(r.sockets, e.burrowId)
    ensures Enabled(Next(r, e), f) && !InGrammar(Next(Next(r, e), f).sockets)
  {
    var n := Next(r, e);
    var ds := Displaced(r.sockets, e.burrowId);
    DisplacedKeeps(r.sockets, e.burrowId);
    NextKeeps(r, e);
    var i :| 0 <= i < |ds| && !ds[i].conn.retired && BoundTo(ds[i], e.burrowId);
    assert n.sockets[i] == ds[i] && n.sockets[|ds|] == NewBurrow(e.burrowId, r.clock, e.at);
    StrandedBreaks(n, i, |ds|);
    f := Breaker(n, i, e.burrowId);
  }

  /**
   * Admitting a Burrow is safe exactly when displacing its old socket leaves no Client bound to it
   * that is closing, or stranded by a socket that left first: then, and only then, does every next
   * turn keep every conversation in its grammar.
   */
  lemma ReplacementSafeExactlyWhenSettled(r: Room, e: Event)
    requires e.OpenBurrow? && Enabled(r, e) && Sound(r.sockets) && Calm(r.sockets)
    requires BurrowAdmitted(r, e.account, e.burrowId, e.read)
    ensures Settled(r.sockets, e.burrowId) <==>
            forall f :: Enabled(Next(r, e), f) ==> InGrammar(Next(Next(r, e), f).sockets)
  {
    if Settled(r.sockets, e.burrowId) {
      NextKeeps(r, e);
      forall f | Enabled(Next(r, e), f) ensures InGrammar(Next(Next(r, e), f).sockets) {
        NextInGrammar(Next(r, e), f);
      }
    } else {
      var f := UnsettledBreaks(r, e);
    }
  }

  // --- What a turn adds ---------------------------------------------------------------------

  /** `t` is `s` with nothing taken back; a socket not registered hears nothing more. */
  predicate Grown(s: Socket, t: Socket) {
    Carried(s, t) && s.log <= t.log && (!Registered(s) ==> s.log == t.log)
        && (s.closing.Some? ==> t.closing == s.closing)
  }

  predicate AllGrown(ss: seq<Socket>, rs: seq<Socket>) {
    |ss| <= |rs| && forall j :: 0 <= j < |ss| ==> Grown(ss[j], rs[j])
  }

  lemma GrownThrough(ss: seq<Socket>, ms: seq<Socket>, rs: seq<Socket>)
    requires AllGrown(ss, ms) && AllGrown(ms, rs)
    ensures AllGrown(ss, rs)
  {
    forall j | 0 <= j < |ss| ensures Grown(ss[j], rs[j]) {
      assert Grown(ss[j], ms[j]) && Grown(ms[j], rs[j]);
    }
  }

  lemma PerformGrows(ss: seq<Socket>, i: nat, act: Act)
    requires i < |ss| && Registered(ss[i]) && ss[i].closing.None?
    ensures AllGrown(ss, Perform(ss, i, act))
  {
  }

  /** Only a socket the room has closed carries a reason, and it is not open. */
  predicate ClosedOnce(ss: seq<Socket>) {
    forall j :: 0 <= j < |ss| && ss[j].closing.Some? ==> !ss[j].open
  }

  lemma SweptGrows(ss: seq<Socket>, i: nat, p: Pass)
    requires i <= |ss| && ClosedOnce(ss)
    ensures AllGrown(ss, Swept(ss, i, p)) && ClosedOnce(Swept(ss, i, p))
    decreases |ss| - i
  {
    if i == |ss| {
    } else if !Registered(ss[i]) {
      SweptGrows(ss, i + 1, p);
    } else {
      var next := Perform(ss, i, Verdict(p, ss[i].conn, ss[i].heard));
      PerformGrows(ss, i, Verdict(p, ss[i].conn, ss[i].heard));
      SweptGrows(next, i + 1, p);
      GrownThrough(ss, next, Swept(ss, i, p));
    }
  }

  lemma SweptBurrowsGrows(ss: seq<Socket>, ids: seq<string>, rows: map<string, Row>, account: Option<string>,
      start: int)
    requires ClosedOnce(ss)
    ensures AllGrown(ss, SweptBurrows(ss, ids, rows, account, start))
            && ClosedOnce(SweptBurrows(ss, ids, rows, account, start))
    decreases |ids|
  {
    if ids != [] {
      var held := FindBurrow(ss, ids[0]);
      var next := if held.Some? then Perform(ss, held.value, BurrowAct(rows, ids[0], account, start)) else ss;
      if held.Some? { PerformGrows(ss, held.value, BurrowAct(rows, ids[0], account, start)); }
      SweptBurrowsGrows(next, ids[1..], rows, account, start);
      GrownThrough(ss, next, SweptBurrows(ss, ids, rows, account, start));
    }
  }

  lemma RetireGrows(ss: seq<Socket>, i: nat, reason: CloseReason)
    requires i < |ss| && Registered(ss[i]) && ClosedOnce(ss)
    ensures AllGrown(ss, Retire(ss, i, reason)) && ClosedOnce(Retire(ss, i, reason))
  {
    PerformGrows(ss, i, Close(reason));
  }

  lemma PostGrows(ss: seq<Socket>, i: nat, e: Entry)
    requires i < |ss| && Registered(ss[i]) && ClosedOnce(ss)
    ensures AllGrown(ss, PostAt(ss, i, e)) && ClosedOnce(PostAt(ss, i, e))
  {
  }

  lemma BindGrows(ss: seq<Socket>, c: nat, b: nat, payload: string)
    requires c < |ss| && b < |ss| && Registered(ss[c]) && ss[c].conn.Client? && Registered(ss[b]) && ss[b].conn.Burrow?
    requires ClosedOnce(ss) && Distinct(ss)
    ensures AllGrown(ss, Bind(ss, c, b, payload)) && ClosedOnce(Bind(ss, c, b, payload))
  {
    var rs := Bind(ss, c, b, payload);
    forall j | 0 <= j < |ss| ensures Grown(ss[j], rs[j]) && rs[j].open == ss[j].open && rs[j].closing == ss[j].closing {
      BindAt(ss, c, b, payload, j);
    }
  }

  lemma ClientFrameGrows(ss: seq<Socket>, c: nat, burrowId: string, step: Step, payload: string, now: int)
    requires c < |ss| && ClosedOnce(ss) && Distinct(ss) && Registered(ss[c]) && ss[c].conn.Client?
    ensures AllGrown(ss, AfterClientFrame(ss, c, burrowId, step, payload, now))
    ensures ClosedOnce(AfterClientFrame(ss, c, burrowId, step, payload, now))
  {
    var b := FindBurrow(ss, burrowId);
    if b.None? {
      PostGrows(ss, c, Offline(burrowId));
    } else if Silent(ss[b.value], now) {
      var rs := Retire(ss, b.value, GoneSilent);
      RetireGrows(ss, b.value, GoneSilent);
      PostGrows(rs, c, Offline(burrowId));
      GrownThrough(ss, rs, PostAt(rs, c, Offline(burrowId)));
    } else if step.Init? {
      BindGrows(ss, c, b.value, payload);
    } else if BoundTo(ss[c], burrowId) {
      PostGrows(ss, b.value, ToBurrow(ss[c].conn.clientId, step, payload));
    }
  }

  lemma ReceiveGrows(ss: seq<Socket>, i: nat, m: Message, now: int)
    requires i < |ss| && ClosedOnce(ss) && Distinct(ss)
    ensures AllGrown(ss, AfterReceive(ss, i, m, now)) && ClosedOnce(AfterReceive(ss, i, m, now))
  {
    if Registered(ss[i]) {
      match m
      case Oversized => RetireGrows(ss, i, FrameTooLarge);
      case Binary =>
      case Text(asClient, asBurrow) =>
        if ss[i].conn.Client? {
          match asClient
          case BadFrame(error) => PostGrows(ss, i, Refused(error));
          case ClientFrame(burrowId, step, payload) => ClientFrameGrows(ss, i, burrowId, step, payload, now);
        } else if asBurrow.BurrowFrame? {
          var c := FindClient(ss, asBurrow.clientId);
          if c.Some? { PostGrows(ss, c.value, FromBurrow(ss[i].conn.burrowId, asBurrow.payload)); }
        }
    }
  }

  lemma ClosedGrows(ss: seq<Socket>, i: nat)
    requires i < |ss| && ClosedOnce(ss) && !ss[i].open
    ensures AllGrown(ss, AfterClosed(ss, i)) && ClosedOnce(AfterClosed(ss, i))
  {
  }

  lemma LeavingGrows(ss: seq<Socket>, i: nat)
    requires i < |ss| && ClosedOnce(ss)
    ensures AllGrown(ss, AfterLeaving(ss, i)) && ClosedOnce(AfterLeaving(ss, i))
  {
  }

  lemma AppendGrows(ss: seq<Socket>, rs: seq<Socket>, s: Socket)
    requires AllGrown(ss, rs) && ClosedOnce(rs) && s.closing.None?
    ensures AllGrown(ss, rs + [s]) && ClosedOnce(rs + [s])
  {
  }

  lemma OpenBurrowGrows(r: Room, e: Event)
    requires e.OpenBurrow? && Enabled(r, e) && ClosedOnce(r.sockets)
    ensures AllGrown(r.sockets, Next(r, e).sockets) && ClosedOnce(Next(r, e).sockets)
  {
    var existing := FindBurrow(r.sockets, e.burrowId);
    if existing.Some? { RetireGrows(r.sockets, existing.value, Replaced); }
    AppendGrows(r.sockets, Displaced(r.sockets, e.burrowId), NewBurrow(e.burrowId, r.clock, e.at));
  }

  lemma OpenClientGrows(r: Room, e: Event)
    requires e.OpenClient? && Enabled(r, e) && ClosedOnce(r.sockets)
    ensures AllGrown(r.sockets, Next(r, e).sockets) && ClosedOnce(Next(r, e).sockets)
  {
    SweptGrows(r.sockets, 0, SilentClients(e.at));
    AppendGrows(r.sockets, MadeRoom(r.sockets, e.at), NewClient(e.clientId, e.session, e.expiresAt, r.clock, e.at));
  }

  lemma AlarmGrows(r: Room, e: Event)
    requires Enabled(r, e) && ClosedOnce(r.sockets) && (e.AlarmBegin? || e.BurrowsRead? || e.ClientsRead?)
    ensures AllGrown(r.sockets, Next(r, e).sockets) && ClosedOnce(Next(r, e).sockets)
  {
    var ss := r.sockets;
    match e
    case AlarmBegin => SweptGrows(ss, 0, Expired(r.clock));
    case BurrowsRead(Failed) => SweptGrows(ss, 0, Unchecked(true, r.sweep.value.start));
    case BurrowsRead(Answered(rows)) => SweptBurrowsGrows(ss, r.sweep.value.burrowIds, rows, r.account,
        r.sweep.value.start);
    case ClientsRead(Failed) => SweptGrows(ss, 0, Unchecked(false, r.sweep.value.start));
    case ClientsRead(Answered(rows)) =>
      SweptGrows(ss, 0, SessionsRead(r.sweep.value.start, r.sweep.value.sessions,
          LiveSessions(rows, r.sweep.value.sessions, r.account)));
  }

  /** A turn takes nothing back and sends nothing to a socket not registered. */
  lemma NextGrows(r: Room, e: Event)
    requires Enabled(r, e) && ClosedOnce(r.sockets) && Distinct(r.sockets)
    ensures AllGrown(r.sockets, Next(r, e).sockets) && ClosedOnce(Next(r, e).sockets)
  {
    match e
    case LeaveOpen(i) => LeavingGrows(r.sockets, i);
    case Closed(i) => ClosedGrows(r.sockets, i);
    case Disconnect(i) =>
      LeavingGrows(r.sockets, i);
      ClosedGrows(AfterLeaving(r.sockets, i), i);
      GrownThrough(r.sockets, AfterLeaving(r.sockets, i), Next(r, e).sockets);
    case OpenBurrow(_, _, _, _) => OpenBurrowGrows(r, e);
    case OpenClient(_, _, _, _, _, _) => OpenClientGrows(r, e);
    case Receive(i, m) => ReceiveGrows(r.sockets, i, m, r.clock);
    case CloseBurrow(_, burrowId) =>
      var held := FindBurrow(r.sockets, burrowId);
      if held.Some? { RetireGrows(r.sockets, held.value, Revoked); }
    case CloseSessions(_, ended) => SweptGrows(r.sockets, 0, OfSessions(ended));
    case NudgeBurrows(_) => SweptGrows(r.sockets, 0, AllBurrows);
    case OnlineBurrows(_) => SweptGrows(r.sockets, 0, SilentBurrows(r.clock));
    case AlarmBegin => AlarmGrows(r, e);
    case BurrowsRead(_) => AlarmGrows(r, e);
    case ClientsRead(_) => AlarmGrows(r, e);
    case _ =>
  }

  // --- What is delivered ------------------------------------------------------------------------

  /** A bound Client's frame reaches its Burrow's socket, once and as it was sent, and no other. */
  lemma FrameDelivered(r: Room, c: nat, b: nat, kind: string, payload: string)
    requires Sound(r.sockets) && c < |r.sockets| && b < |r.sockets|
    requires Registered(r.sockets[c]) && Registered(r.sockets[b]) && r.sockets[b].conn.Burrow?
    requires BoundTo(r.sockets[c], r.sockets[b].conn.burrowId) && !Silent(r.sockets[b], r.clock)
    ensures var e := Receive(c, Text(ClientFrame(r.sockets[b].conn.burrowId, Later(kind), payload), NoFrame));
            var rs := Next(r, e).sockets;
            && |rs| == |r.sockets|
            && rs[b].log == r.sockets[b].log + [ToBurrow(r.sockets[c].conn.clientId, Later(kind), payload)]
            && forall j :: 0 <= j < |rs| && j != b ==> rs[j] == r.sockets[j]
  {
    var f := FindBurrow(r.sockets, r.sockets[b].conn.burrowId);
    assert HoldsBurrow(r.sockets[f.value], r.sockets[b].conn.burrowId);
  }

  /**
   * A Client's `init` binds it and reaches the Burrow it names; a Burrow it was bound to hears it is gone, and
   * no one else hears.
   */
  lemma InitDelivered(r: Room, c: nat, b: nat, payload: string)
    requires Sound(r.sockets) && c < |r.sockets| && b < |r.sockets|
    requires Registered(r.sockets[c]) && r.sockets[c].conn.Client?
    requires Registered(r.sockets[b]) && r.sockets[b].conn.Burrow? && !Silent(r.sockets[b], r.clock)
    ensures var to := r.sockets[b].conn.burrowId;
            var me := r.sockets[c].conn;
            var rs := Next(r, Receive(c, Text(ClientFrame(to, Init, payload), NoFrame))).sockets;
            && |rs| == |r.sockets| && BoundTo(rs[c], to)
            && rs[b].log == r.sockets[b].log + [ToBurrow(me.clientId, Init, payload)]
            && forall j :: 0 <= j < |rs| && j != b && j != c ==>
                 rs[j].log == r.sockets[j].log +
                   if me.bound.Some? && HoldsBurrow(r.sockets[j], me.bound.value) then [ClientGone(me.clientId)] else []
  {
    var ss := r.sockets;
    var f := FindBurrow(ss, ss[b].conn.burrowId);
    assert HoldsBurrow(ss[f.value], ss[b].conn.burrowId);
    var rs := Bind(ss, c, b, payload);
    forall j | 0 <= j < |ss| ensures rs[j].log == ss[j].log + rs[j].log[|ss[j].log|..] {
      BindAt(ss, c, b, payload, j);
    }
    BindAt(ss, c, b, payload, b);
    BindAt(ss, c, b, payload, c);
    forall j | 0 <= j < |ss| && j != b && j != c
      ensures rs[j].log == ss[j].log + if ss[c].conn.bound.Some? && HoldsBurrow(ss[j], ss[c].conn.bound.value)
              then [ClientGone(ss[c].conn.clientId)] else []
    {
      BindAt(ss, c, b, payload, j);
    }
  }

  /** A Burrow's frame reaches the Client it names, once and as it was sent, exactly when that Client is bound to it. */
  lemma ReplyDelivered(r: Room, b: nat, clientId: string, payload: string)
    requires Sound(r.sockets) && b < |r.sockets| && Registered(r.sockets[b]) && r.sockets[b].conn.Burrow?
    ensures var id := r.sockets[b].conn.burrowId;
            var rs := Next(r, Receive(b, Text(BadFrame(""), BurrowFrame(clientId, payload)))).sockets;
            && |rs| == |r.sockets|
            && forall j :: 0 <= j < |rs| ==>
                 var s := r.sockets[j];
                 rs[j] == if s.open && !s.conn.retired && s.conn.Client? && s.conn.clientId == clientId && s.conn.bound == Some(id)
                          then s.(log := s.log + [FromBurrow(id, payload)])
                          else s
  {
  }

  // --- The cap ------------------------------------------------------------------------------------

  lemma {:induction false} ClientsCarried(ss: seq<Socket>, rs: seq<Socket>)
    requires AllCarried(ss, rs)
    ensures Clients(rs) <= Clients(ss)
    decreases |ss|
  {
    if ss != [] {
      assert Carried(ss[|ss| - 1], rs[|ss| - 1]);
      ClientsCarried(ss[..|ss| - 1], rs[..|ss| - 1]);
    }
  }

  lemma ClientsAppended(ss: seq<Socket>, s: Socket)
    ensures Clients(ss + [s]) == Clients(ss) + if Registered(s) && s.conn.Client? then 1 else 0
  {
    assert (ss + [s])[..|ss|] == ss;
  }

  lemma OpenBurrowCapped(r: Room, e: Event)
    requires e.OpenBurrow? && Enabled(r, e) && Sound(r.sockets)
    ensures Clients(Next(r, e).sockets) <= Clients(r.sockets)
  {
    DisplacedKeeps(r.sockets, e.burrowId);
    ClientsCarried(r.sockets, Displaced(r.sockets, e.burrowId));
    ClientsAppended(Displaced(r.sockets, e.burrowId), NewBurrow(e.burrowId, r.clock, e.at));
  }

  lemma OpenClientCapped(r: Room, e: Event)
    requires e.OpenClient? && Enabled(r, e) && Sound(r.sockets) && Clients(r.sockets) <= MAX_CLIENT_SOCKETS
    ensures Clients(Next(r, e).sockets) <= MAX_CLIENT_SOCKETS
  {
    var ms := MadeRoom(r.sockets, e.at);
    SweptKeeps(r.sockets, 0, SilentClients(e.at));
    ClientsCarried(r.sockets, Swept(r.sockets, 0, SilentClients(e.at)));
    assert Clients(ms) <= MAX_CLIENT_SOCKETS;
    ClientsAppended(ms, NewClient(e.clientId, e.session, e.expiresAt, r.clock, e.at));
  }

  lemma NextCapped(r: Room, e: Event)
    requires Enabled(r, e) && Sound(r.sockets) && Clients(r.sockets) <= MAX_CLIENT_SOCKETS
    ensures Clients(Next(r, e).sockets) <= MAX_CLIENT_SOCKETS
  {
    var ss := r.sockets;
    if e.OpenBurrow? {
      OpenBurrowCapped(r, e);
    } else if e.OpenClient? {
      OpenClientCapped(r, e);
    } else if e.LeaveOpen? || e.Disconnect? {
      LeavingKeeps(ss, e.i);
      ClientsCarried(ss, AfterLeaving(ss, e.i));
      ClosedKeeps(AfterLeaving(ss, e.i), e.i);
      ClientsCarried(AfterLeaving(ss, e.i), AfterClosed(AfterLeaving(ss, e.i), e.i));
    } else if e.Closed? {
      ClosedKeeps(ss, e.i);
      ClientsCarried(ss, Next(r, e).sockets);
    } else {
      HeldTurnKeeps(r, e);
      ClientsCarried(ss, Next(r, e).sockets);
    }
  }

  /** Registered Clients never pass the cap, and nothing the room has closed is ever open again. */
  lemma {:induction false} RunCapped(events: seq<Event>)
    requires CanRun(EMPTY, events)
    ensures Clients(Run(EMPTY, events).sockets) <= MAX_CLIENT_SOCKETS
    ensures ClosedOnce(Run(EMPTY, events).sockets)
    decreases |events|
  {
    if events != [] {
      var r := Run(EMPTY, events[..|events| - 1]);
      RunCapped(events[..|events| - 1]);
      RunSound(events[..|events| - 1]);
      NextCapped(r, events[|events| - 1]);
      NextGrows(r, events[|events| - 1]);
    }
  }

  // --- A replacement that strands a Client --------------------------------------------------------

  lemma Extend(events: seq<Event>, e: Event)
    requires CanRun(EMPTY, events) && Enabled(Run(EMPTY, events), e)
    ensures CanRun(EMPTY, events + [e]) && Run(EMPTY, events + [e]) == Next(Run(EMPTY, events), e)
  {
    assert (events + [e])[..|events|] == events;
  }

  const ROWS: Read := Answered(map["desk" := Row("ann", true), "s" := Row("ann", true)])
  const OPENS: Event := OpenBurrow("ann", "desk", ROWS, 0)
  const JOINS: Event := OpenClient("ann", "s", 9, "c", ROWS, 0)
  const BINDS: Event := Receive(1, Text(ClientFrame("desk", Init, ""), NoFrame))

  lemma DeskOpens()
    ensures Next(EMPTY, OPENS) == Room([NewBurrow("desk", 0, 0)], Some(SWEEP_MS), Some("ann"), 0, None)
  {
    assert Displaced([], "desk") == [];
  }

  lemma PhoneJoins(r: Room)
    requires r == Room([NewBurrow("desk", 0, 0)], Some(SWEEP_MS), Some("ann"), 0, None)
    ensures Enabled(r, JOINS)
    ensures Next(r, JOINS) ==
            Room([NewBurrow("desk", 0, 0), NewClient("c", "s", 9, 0, 0)], Some(9), Some("ann"), 0, None)
  {
    assert r.sockets == [] + [NewBurrow("desk", 0, 0)];
    ClientsAppended([], NewBurrow("desk", 0, 0));
    assert r.sockets + [NewClient("c", "s", 9, 0, 0)] == [NewBurrow("desk", 0, 0), NewClient("c", "s", 9, 0, 0)];
  }

  lemma PhoneBinds(r: Room)
    requires r == Room([NewBurrow("desk", 0, 0), NewClient("c", "s", 9, 0, 0)], Some(9), Some("ann"), 0, None)
    requires Sound(r.sockets)
    ensures Enabled(r, BINDS)
    ensures var n := Next(r, BINDS);
            && |n.sockets| == 2 && n.sockets[0].open && Registered(n.sockets[1]) && BoundTo(n.sockets[1], "desk")
            && n == r.(sockets := n.sockets)
  {
    InitDelivered(r, 1, 0, "");
    var f := FindBurrow(r.sockets, "desk");
    assert HoldsBurrow(r.sockets[0], "desk");
    assert f == Some(0);
    BindAt(r.sockets, 1, 0, "", 0);
    BindAt(r.sockets, 1, 0, "", 1);
  }

  /**
   * Such a run exists: a Burrow's socket leaves, its successor opens before the close handler runs,
   * and a Client still bound speaks to a successor it never opened a conversation with.
   */
  lemma StrandingHappens() returns (events: seq<Event>)
    ensures CanRun(EMPTY, events)
    ensures exists j, k :: 0 <= j < |Run(EMPTY, events).sockets| && !WellTalked(Run(EMPTY, events).sockets[j].log, k)
  {
    hide Calm, Distinct, Anchored, Faithful, WellTalked, AfterReceive, AfterOpenClient;
    events := [];
    Extend(events, OPENS);
    events := events + [OPENS];
    DeskOpens();
    PhoneJoins(Run(EMPTY, events));
    Extend(events, JOINS);
    events := events + [JOINS];
    RunSound(events);
    PhoneBinds(Run(EMPTY, events));
    Extend(events, BINDS);
    events := events + [BINDS];
    Extend(events, LeaveOpen(0));
    events := events + [LeaveOpen(0)];
    var r := Run(EMPTY, events);
    assert !r.sockets[1].conn.retired && BoundTo(r.sockets[1], "desk");
    assert !HoldsBurrow(r.sockets[0], "desk");
    assert !Settled(r.sockets, "desk");
    RunSound(events);
    var f := UnsettledBreaks(r, OPENS);
    Extend(events, OPENS);
    events := events + [OPENS];
    Extend(events, f);
    events := events + [f];
    var ss := Run(EMPTY, events).sockets;
    var j, k :| 0 <= j < |ss| && TalkOf(ss[j].log, k).Broken?;
    TalkMeaning(ss[j].log, k);
  }
}
