/**
 * The relay room's backstop: while it holds a socket an alarm is set, soon enough that a socket whose
 * row is gone is closed within a fixed bound even if every read of the rows fails.
 */
module RelayAlarm {
  import opened Wrappers
  import opened RelayModel
  import opened RelayConversations
  import opened RelayTheorems

  /** The longest a registered socket's row goes without a read that found it live, an alarm's own reads aside. */
  const BOUND_MS: int := SWEEP_MS + GRACE_MS + RETRY_MS

  // --- What a turn does to a socket's deadlines -------------------------------------------

  /** `t` is `s` later on: not checked longer ago, and due to expire when it was. */
  predicate Later(s: Socket, t: Socket) {
    && Carried(s, t) && s.conn.checkedAt <= t.conn.checkedAt
    && (s.conn.Client? ==> s.conn.session == t.conn.session && s.conn.expiresAt == t.conn.expiresAt)
  }

  predicate AllLater(ss: seq<Socket>, rs: seq<Socket>) {
    |ss| == |rs| && forall j :: 0 <= j < |ss| ==> Later(ss[j], rs[j])
  }

  /** The same, and nothing checked meanwhile. */
  predicate AllKept(ss: seq<Socket>, rs: seq<Socket>) {
    AllLater(ss, rs) && forall j :: 0 <= j < |ss| ==> ss[j].conn.checkedAt == rs[j].conn.checkedAt
  }

  /** Agrees with `s` on all a pass judges by. */
  predicate Alike(s: Socket, t: Socket) {
    && s.heard == t.heard && s.conn.Burrow? == t.conn.Burrow?
    && s.conn.openedAt == t.conn.openedAt && s.conn.checkedAt == t.conn.checkedAt
    && (s.conn.Client? ==> s.conn.session == t.conn.session && s.conn.expiresAt == t.conn.expiresAt)
  }

  lemma PerformLater(ss: seq<Socket>, i: nat, act: Act)
    requires i < |ss|
    ensures AllLater(ss, Perform(ss, i, act))
    ensures !act.Live? && !act.LiveNudged? ==> AllKept(ss, Perform(ss, i, act))
    ensures forall j :: 0 <= j < |ss| && j != i ==> Alike(ss[j], Perform(ss, i, act)[j])
    ensures act.Close? ==> !Registered(Perform(ss, i, act)[i])
    ensures act.Live? || act.LiveNudged? ==> Perform(ss, i, act)[i].conn.checkedAt >= act.start
  {
  }

  lemma LaterThrough(ss: seq<Socket>, ms: seq<Socket>, rs: seq<Socket>)
    requires AllLater(ss, ms) && AllLater(ms, rs)
    ensures AllLater(ss, rs)
    ensures AllKept(ss, ms) && AllKept(ms, rs) ==> AllKept(ss, rs)
  {
    forall j | 0 <= j < |ss| ensures Later(ss[j], rs[j]) {
      assert Later(ss[j], ms[j]) && Later(ms[j], rs[j]);
    }
  }

  lemma SweptLater(ss: seq<Socket>, i: nat, p: Pass)
    requires i <= |ss|
    ensures AllLater(ss, Swept(ss, i, p))
    ensures !p.SessionsRead? ==> AllKept(ss, Swept(ss, i, p))
    decreases |ss| - i
  {
    if i == |ss| {
    } else if !Registered(ss[i]) {
      SweptLater(ss, i + 1, p);
    } else {
      var act := Verdict(p, ss[i].conn, ss[i].heard);
      PerformLater(ss, i, act);
      SweptLater(Perform(ss, i, act), i + 1, p);
      LaterThrough(ss, Perform(ss, i, act), Swept(ss, i, p));
    }
  }

  /** A socket a pass leaves registered was not one it closes, and one it found live is marked so. */
  lemma SweptVerdict(ss: seq<Socket>, i: nat, p: Pass, j: nat)
    requires i <= j < |ss| && Registered(ss[j]) && Registered(Swept(ss, i, p)[j])
    ensures !Verdict(p, ss[j].conn, ss[j].heard).Close?
    ensures Verdict(p, ss[j].conn, ss[j].heard).Live? ==>
              Swept(ss, i, p)[j].conn.checkedAt >= Verdict(p, ss[j].conn, ss[j].heard).start
    decreases |ss| - i
  {
    if !Registered(ss[i]) {
      SweptVerdict(ss, i + 1, p, j);
    } else {
      var act := Verdict(p, ss[i].conn, ss[i].heard);
      var next := Perform(ss, i, act);
      PerformLater(ss, i, act);
      SweptLater(next, i + 1, p);
      assert Later(next[j], Swept(ss, i, p)[j]);
      if i != j {
        assert Alike(ss[j], next[j]);
        SweptVerdict(next, i + 1, p, j);
      }
    }
  }

  lemma SweptBurrowsLater(ss: seq<Socket>, ids: seq<string>, rows: map<string, Row>, account: Option<string>,
      start: int)
    ensures AllLater(ss, SweptBurrows(ss, ids, rows, account, start))
    decreases |ids|
  {
    if ids != [] {
      var held := FindBurrow(ss, ids[0]);
      var next := if held.Some? then Perform(ss, held.value, BurrowAct(rows, ids[0], account, start)) else ss;
      if held.Some? { PerformLater(ss, held.value, BurrowAct(rows, ids[0], account, start)); }
      SweptBurrowsLater(next, ids[1..], rows, account, start);
      LaterThrough(ss, next, SweptBurrows(ss, ids, rows, account, start));
    }
  }

  /** Each Burrow asked about is marked live, or gone. */
  lemma SweptBurrowsJudged(ss: seq<Socket>, ids: seq<string>, rows: map<string, Row>, account: Option<string>,
      start: int, j: nat)
    requires j < |ss| && Sound(ss) && ss[j].conn.Burrow? && ss[j].conn.burrowId in ids
    requires Registered(SweptBurrows(ss, ids, rows, account, start)[j])
    ensures SweptBurrows(ss, ids, rows, account, start)[j].conn.checkedAt >= start
    ensures IsLive(rows, ss[j].conn.burrowId, account)
    decreases |ids|
  {
    var held := FindBurrow(ss, ids[0]);
    var next := if held.Some? then Perform(ss, held.value, BurrowAct(rows, ids[0], account, start)) else ss;
    if held.Some? {
      PerformLater(ss, held.value, BurrowAct(rows, ids[0], account, start));
      PerformKeeps(ss, held.value, BurrowAct(rows, ids[0], account, start));
    }
    SweptBurrowsLater(next, ids[1..], rows, account, start);
    assert Later(next[j], SweptBurrows(ss, ids, rows, account, start)[j]);
    assert Later(ss[j], next[j]) by { if held.Some? { assert AllLater(ss, next); } }
    if ss[j].conn.burrowId == ids[0] {
      assert HoldsBurrow(ss[j], ids[0]);
      assert HoldsBurrow(ss[held.value], ss[j].conn.burrowId);
    } else {
      SweptBurrowsJudged(next, ids[1..], rows, account, start, j);
    }
  }

  lemma {:induction false} HeldIdsHold(ss: seq<Socket>, i: nat)
    requires i < |ss| && Registered(ss[i]) && ss[i].conn.Burrow?
    ensures ss[i].conn.burrowId in HeldBurrowIds(ss)
    decreases |ss|
  {
    if i < |ss| - 1 {
      HeldIdsHold(ss[..|ss| - 1], i);
    }
  }

  lemma {:induction false} EarliestIsEarly(ss: seq<Socket>, time: int)
    ensures EarliestExpiry(ss, time) <= time
    ensures forall i :: 0 <= i < |ss| && Registered(ss[i]) && ss[i].conn.Client? ==>
            EarliestExpiry(ss, time) <= ss[i].conn.expiresAt
    decreases |ss|
  {
    if ss != [] {
      EarliestIsEarly(ss[..|ss| - 1], time);
      forall i | 0 <= i < |ss| && Registered(ss[i]) && ss[i].conn.Client?
        ensures EarliestExpiry(ss, time) <= ss[i].conn.expiresAt
      {
        if i < |ss| - 1 { assert ss[..|ss| - 1][i] == ss[i]; }
      }
    }
  }

  // --- The invariant --------------------------------------------------------------------------

  /** While no alarm runs: one is set, in time for `s`. */
  predicate Timed(alarm: Option<int>, s: Socket) {
    alarm.Some? && alarm.value <= s.conn.checkedAt + BOUND_MS && (s.conn.Client? ==> alarm.value <= s.conn.expiresAt)
  }

  predicate Asked(sw: Sweep, conn: Conn) {
    if conn.Burrow? then conn.burrowId in sw.burrowIds else conn.session in sw.sessions
  }

  function ReadOf(sw: Sweep, conn: Conn): Option<bool> {
    if conn.Burrow? then sw.burrowsRead else sw.clientsRead
  }

  /** While an alarm runs: `s` has been checked since it began, or will be, or may wait for the retry. */
  predicate Judged(sw: Sweep, s: Socket) {
    match ReadOf(sw, s.conn)
    case None => sw.start <= s.conn.checkedAt || Asked(sw, s.conn)
    case Some(read) => sw.start - s.conn.checkedAt < if read then 1 else SWEEP_MS + GRACE_MS
  }

  predicate Watched(r: Room) {
    && (r.sweep.Some? ==> r.sweep.value.start <= r.clock)
    && forall i :: 0 <= i < |r.sockets| && Registered(r.sockets[i]) ==>
         if r.sweep.None? then Timed(r.alarm, r.sockets[i]) else Judged(r.sweep.value, r.sockets[i])
  }

  lemma WatchedLater(r: Room, n: Room)
    requires Watched(r) && AllLater(r.sockets, n.sockets) && n.alarm == r.alarm && n.sweep == r.sweep
             && r.clock <= n.clock
    ensures Watched(n)
  {
    forall i | 0 <= i < |n.sockets| && Registered(n.sockets[i])
      ensures if n.sweep.None? then Timed(n.alarm, n.sockets[i]) else Judged(n.sweep.value, n.sockets[i])
    {
      assert Later(r.sockets[i], n.sockets[i]);
    }
  }

  lemma UnregisterLater(ss: seq<Socket>, i: nat)
    requires i < |ss|
    ensures AllKept(ss, Unregister(ss, i))
  {
  }

  lemma BindLater(ss: seq<Socket>, c: nat, b: nat, payload: string)
    requires c < |ss| && b < |ss| && Distinct(ss) && Registered(ss[c]) && ss[c].conn.Client? && Registered(ss[b])
             && ss[b].conn.Burrow?
    ensures AllKept(ss, Bind(ss, c, b, payload))
  {
    forall j | 0 <= j < |ss|
      ensures Later(ss[j], Bind(ss, c, b, payload)[j])
              && ss[j].conn.checkedAt == Bind(ss, c, b, payload)[j].conn.checkedAt
    {
      BindAt(ss, c, b, payload, j);
    }
  }

  lemma ClientFrameLater(ss: seq<Socket>, c: nat, burrowId: string, step: Step, payload: string, now: int)
    requires c < |ss| && Distinct(ss) && Registered(ss[c]) && ss[c].conn.Client?
    ensures AllKept(ss, AfterClientFrame(ss, c, burrowId, step, payload, now))
  {
    var b := FindBurrow(ss, burrowId);
    if b.Some? && Silent(ss[b.value], now) {
      PerformLater(ss, b.value, Close(GoneSilent));
      LaterThrough(ss, Retire(ss, b.value, GoneSilent), AfterClientFrame(ss, c, burrowId, step, payload, now));
    } else if b.Some? && step.Init? {
      BindLater(ss, c, b.value, payload);
    }
  }

  lemma ReceiveLater(ss: seq<Socket>, i: nat, m: Message, now: int)
    requires i < |ss| && Distinct(ss)
    ensures AllKept(ss, AfterReceive(ss, i, m, now))
  {
    if Registered(ss[i]) {
      match m
      case Oversized => PerformLater(ss, i, Close(FrameTooLarge));
      case Binary =>
      case Text(asClient, asBurrow) =>
        if ss[i].conn.Client? && asClient.ClientFrame? {
          ClientFrameLater(ss, i, asClient.burrowId, asClient.step, asClient.payload, now);
        }
    }
  }

  lemma ClosedLater(ss: seq<Socket>, i: nat)
    requires i < |ss|
    ensures AllKept(ss, AfterClosed(ss, i)) && AllKept(ss, AfterClosed(AfterLeaving(ss, i), i))
  {
    UnregisterLater(ss, i);
    UnregisterLater(AfterLeaving(ss, i), i);
    hide Unregister;
    LaterThrough(ss, AfterLeaving(ss, i), AfterClosed(AfterLeaving(ss, i), i));
  }

  /** Turns that neither open a socket nor move the alarm or the sweep. */
  lemma QuietTurnKept(r: Room, e: Event)
    requires Enabled(r, e) && Sound(r.sockets)
    requires !e.OpenBurrow? && !e.OpenClient? && !e.AlarmBegin? && !e.BurrowsRead? && !e.ClientsRead? && !e.AlarmEnd?
    ensures AllKept(r.sockets, Next(r, e).sockets)
  {
    hide Unregister, Retire, Swept, AfterReceive, AfterClosed;
    var ss := r.sockets;
    match e
    case Closed(i) => ClosedLater(ss, i);
    case Disconnect(i) => ClosedLater(ss, i);
    case Receive(i, m) => ReceiveLater(ss, i, m, r.clock);
    case CloseBurrow(_, burrowId) =>
      var held := FindBurrow(ss, burrowId);
      if held.Some? { PerformLater(ss, held.value, Close(Revoked)); }
    case CloseSessions(_, ended) => SweptLater(ss, 0, OfSessions(ended));
    case NudgeBurrows(_) => SweptLater(ss, 0, AllBurrows);
    case OnlineBurrows(_) => SweptLater(ss, 0, SilentBurrows(r.clock));
    case _ =>
  }

  lemma OpenBurrowWatched(r: Room, e: Event)
    requires e.OpenBurrow? && Enabled(r, e) && Sound(r.sockets) && Watched(r)
    ensures Watched(Next(r, e))
  {
    var n := Next(r, e);
    if BurrowAdmitted(r, e.account, e.burrowId, e.read) {
      var ds := Displaced(r.sockets, e.burrowId);
      var existing := FindBurrow(r.sockets, e.burrowId);
      if existing.Some? { PerformLater(r.sockets, existing.value, Close(Replaced)); }
      forall i | 0 <= i < |n.sockets| && Registered(n.sockets[i])
        ensures if n.sweep.None? then Timed(n.alarm, n.sockets[i]) else Judged(n.sweep.value, n.sockets[i])
      {
        if i < |ds| { assert Later(r.sockets[i], ds[i]); }
      }
    }
  }

  lemma OpenClientWatched(r: Room, e: Event)
    requires e.OpenClient? && Enabled(r, e) && Sound(r.sockets) && Watched(r)
    ensures Watched(Next(r, e))
  {
    hide Distinct, Faithful, Anchored, Swept, Clients, IsLive;
    var n := Next(r, e);
    var ms := MadeRoom(r.sockets, e.at);
    SweptLater(r.sockets, 0, SilentClients(e.at));
    assert AllLater(r.sockets, ms);
    forall i | 0 <= i < |n.sockets| && Registered(n.sockets[i])
      ensures if n.sweep.None? then Timed(n.alarm, n.sockets[i]) else Judged(n.sweep.value, n.sockets[i])
    {
      if i < |ms| && n.sockets != r.sockets { assert Later(r.sockets[i], ms[i]); }
    }
  }

  lemma AlarmBeginWatched(r: Room)
    requires Enabled(r, AlarmBegin) && Watched(r)
    ensures Watched(Next(r, AlarmBegin))
    ensures forall i :: 0 <= i < |r.sockets| && Registered(Next(r, AlarmBegin).sockets[i]) && r.sockets[i].conn.Client? ==>
              r.clock < r.sockets[i].conn.expiresAt
  {
    var n := Next(r, AlarmBegin);
    var ss := n.sockets;
    SweptLater(r.sockets, 0, Expired(r.clock));
    forall i | 0 <= i < |ss| && Registered(ss[i])
      ensures Judged(n.sweep.value, ss[i])
      ensures r.sockets[i].conn.Client? ==> r.clock < r.sockets[i].conn.expiresAt
    {
      assert Later(r.sockets[i], ss[i]);
      SweptVerdict(r.sockets, 0, Expired(r.clock), i);
      if ss[i].conn.Burrow? {
        HeldIdsHold(ss, i);
      } else {
        assert ss[i].conn.session in HeldSessions(ss);
      }
    }
  }

  lemma BurrowsReadWatched(r: Room, read: Read)
    requires Enabled(r, BurrowsRead(read)) && Sound(r.sockets) && Watched(r)
    ensures Watched(Next(r, BurrowsRead(read))) && AllLater(r.sockets, Next(r, BurrowsRead(read)).sockets)
  {
    var sw := r.sweep.value;
    var n := Next(r, BurrowsRead(read));
    SweptLater(r.sockets, 0, Unchecked(true, sw.start));
    if read.Answered? { SweptBurrowsLater(r.sockets, sw.burrowIds, read.rows, r.account, sw.start); }
    forall i | 0 <= i < |n.sockets| && Registered(n.sockets[i]) ensures Judged(n.sweep.value, n.sockets[i]) {
      assert Later(r.sockets[i], n.sockets[i]) && Judged(sw, r.sockets[i]);
      if n.sockets[i].conn.Burrow? {
        match read
        case Failed => SweptVerdict(r.sockets, 0, Unchecked(true, sw.start), i);
        case Answered(rows) =>
          if r.sockets[i].conn.burrowId in sw.burrowIds {
            SweptBurrowsJudged(r.sockets, sw.burrowIds, rows, r.account, sw.start, i);
          }
      }
    }
  }

  lemma ClientsReadWatched(r: Room, read: Read)
    requires Enabled(r, ClientsRead(read)) && Watched(r)
    ensures Watched(Next(r, ClientsRead(read))) && AllLater(r.sockets, Next(r, ClientsRead(read)).sockets)
  {
    var sw := r.sweep.value;
    var n := Next(r, ClientsRead(read));
    var p := match read
      case Failed => Unchecked(false, sw.start)
      case Answered(rows) => SessionsRead(sw.start, sw.sessions, LiveSessions(rows, sw.sessions, r.account));
    SweptLater(r.sockets, 0, p);
    forall i | 0 <= i < |n.sockets| && Registered(n.sockets[i]) ensures Judged(n.sweep.value, n.sockets[i]) {
      assert Later(r.sockets[i], n.sockets[i]) && Judged(sw, r.sockets[i]);
      SweptVerdict(r.sockets, 0, p, i);
    }
  }

  lemma AlarmEndWatched(r: Room)
    requires Enabled(r, AlarmEnd) && Watched(r)
    ensures Watched(Next(r, AlarmEnd))
  {
    var sw := r.sweep.value;
    var n := Next(r, AlarmEnd);
    EarliestIsEarly(r.sockets, sw.start + if sw.burrowsRead.value && sw.clientsRead.value then SWEEP_MS else RETRY_MS);
    forall i | 0 <= i < |n.sockets| && Registered(n.sockets[i]) ensures Timed(n.alarm, n.sockets[i]) {
      assert Judged(sw, r.sockets[i]);
    }
  }

  lemma NextWatched(r: Room, e: Event)
    requires Enabled(r, e) && Sound(r.sockets) && Watched(r)
    ensures Watched(Next(r, e))
  {
    match e
    case OpenBurrow(_, _, _, _) => OpenBurrowWatched(r, e);
    case OpenClient(_, _, _, _, _, _) => OpenClientWatched(r, e);
    case AlarmBegin => AlarmBeginWatched(r);
    case BurrowsRead(read) => BurrowsReadWatched(r, read);
    case ClientsRead(read) => ClientsReadWatched(r, read);
    case AlarmEnd => AlarmEndWatched(r);
    case _ =>
      QuietTurnKept(r, e);
      WatchedLater(r, Next(r, e));
  }

  /**
   * In every run: while no alarm is running and a socket is registered, an alarm is set, no later
   * than each registered Client's expiry and than `BOUND_MS` after each registered socket's last check.
   */
  lemma {:induction false} AlarmAlwaysSet(events: seq<Event>)
    requires CanRun(EMPTY, events)
    ensures Watched(Run(EMPTY, events))
    ensures var r := Run(EMPTY, events);
            r.sweep.None? ==> forall i :: 0 <= i < |r.sockets| && Registered(r.sockets[i]) ==>
              && r.alarm.Some? && r.alarm.value <= r.sockets[i].conn.checkedAt + BOUND_MS
              && (r.sockets[i].conn.Client? ==> r.alarm.value <= r.sockets[i].conn.expiresAt)
    decreases |events|
  {
    if events != [] {
      AlarmAlwaysSet(events[..|events| - 1]);
      RunSound(events[..|events| - 1]);
      NextWatched(Run(EMPTY, events[..|events| - 1]), events[|events| - 1]);
    }
  }

  // --- With alarms never later than a bound -------------------------------------------------------------------

  function ClockAfter(r: Room, e: Event): int {
    if e.Tick? || e.OpenBurrow? || e.OpenClient? then e.at else r.clock
  }

  /**
   * Time moves no further than `late` past an alarm before it begins, and past a running one than a
   * read's timeout and `late`: what an upgrade's own read, which other turns wait for, may hold it up by.
   * One set in the past is due at once.
   */
  predicate Punctual(r: Room, e: Event, late: nat) {
    var at := ClockAfter(r, e);
    && (r.sweep.None? && r.alarm.Some? ==> at <= r.alarm.value + late || at <= r.clock)
    && (r.sweep.Some? ==> at <= r.sweep.value.start + READ_TIMEOUT_MS + late)
  }

  predicate PunctualRun(events: seq<Event>, late: nat)
    requires CanRun(EMPTY, events)
    decreases |events|
  {
    events == [] ||
    (PunctualRun(events[..|events| - 1], late)
        && Punctual(Run(EMPTY, events[..|events| - 1]), events[|events| - 1], late))
  }

  /** `s` is within its bounds. */
  predicate FreshAt(r: Room, s: Socket, late: nat) {
    match r.sweep
    case None =>
      && r.clock <= s.conn.checkedAt + BOUND_MS + late
      && (s.conn.Client? ==> r.clock <= s.conn.expiresAt + READ_TIMEOUT_MS + late)
    case Some(sw) =>
      && r.clock <= sw.start + READ_TIMEOUT_MS + late && sw.start <= s.conn.checkedAt + BOUND_MS + late
      && (s.conn.Client? ==> sw.start < s.conn.expiresAt)
  }

  predicate Fresh(r: Room, late: nat) {
    && (r.sweep.Some? ==> r.clock <= r.sweep.value.start + READ_TIMEOUT_MS + late)
    && forall i :: 0 <= i < |r.sockets| && Registered(r.sockets[i]) ==> FreshAt(r, r.sockets[i], late)
  }

  lemma FreshLater(r: Room, n: Room, late: nat)
    requires Watched(r) && Fresh(r, late) && AllLater(r.sockets, n.sockets) && n.sweep.Some? == r.sweep.Some?
    requires r.sweep.Some? ==>
             n.sweep.value.start == r.sweep.value.start && n.clock <= r.sweep.value.start + READ_TIMEOUT_MS + late
    requires r.sweep.None? && r.alarm.Some? ==> n.clock <= r.alarm.value + late || n.clock <= r.clock
    ensures Fresh(n, late)
  {
    forall i | 0 <= i < |n.sockets| && Registered(n.sockets[i]) ensures FreshAt(n, n.sockets[i], late) {
      assert Later(r.sockets[i], n.sockets[i]);
    }
  }

  lemma OpenBurrowFresh(r: Room, e: Event, late: nat)
    requires e.OpenBurrow? && Enabled(r, e) && Watched(r) && Fresh(r, late) && Punctual(r, e, late)
    ensures Fresh(Next(r, e), late)
  {
    var n := Next(r, e);
    FreshLater(r, r.(clock := n.clock), late);
    if BurrowAdmitted(r, e.account, e.burrowId, e.read) {
      var ds := Displaced(r.sockets, e.burrowId);
      var existing := FindBurrow(r.sockets, e.burrowId);
      if existing.Some? { PerformLater(r.sockets, existing.value, Close(Replaced)); }
      FreshLater(r, r.(sockets := ds, clock := n.clock), late);
      AppendFresh(r.(sockets := ds, clock := n.clock), n, NewBurrow(e.burrowId, r.clock, e.at), late);
    }
  }

  lemma OpenClientFresh(r: Room, e: Event, late: nat)
    requires e.OpenClient? && Enabled(r, e) && Watched(r) && Fresh(r, late) && Punctual(r, e, late)
    ensures Fresh(Next(r, e), late)
  {
    hide Distinct, Faithful, Anchored, Swept, Clients, IsLive;
    var n := Next(r, e);
    var ms := MadeRoom(r.sockets, e.at);
    SweptLater(r.sockets, 0, SilentClients(e.at));
    FreshLater(r, r.(clock := n.clock), late);
    FreshLater(r, r.(sockets := ms, clock := n.clock), late);
    if ClientAdmitted(r, e.account, e.session, e.expiresAt, e.read, e.at) {
      AppendFresh(r.(sockets := ms, clock := n.clock), n, NewClient(e.clientId, e.session, e.expiresAt, r.clock, e.at),
          late);
    }
  }

  lemma AppendFresh(m: Room, n: Room, s: Socket, late: nat)
    requires Fresh(m, late) && n.sockets == m.sockets + [s] && n.clock == m.clock && n.sweep == m.sweep
             && FreshAt(n, s, late)
    ensures Fresh(n, late)
  {
    forall i | 0 <= i < |n.sockets| && Registered(n.sockets[i]) ensures FreshAt(n, n.sockets[i], late) {
      assert i < |m.sockets| ==> FreshAt(m, m.sockets[i], late);
    }
  }

  lemma NextFresh(r: Room, e: Event, late: nat)
    requires Enabled(r, e) && Sound(r.sockets) && Watched(r) && Fresh(r, late) && Punctual(r, e, late)
    ensures Fresh(Next(r, e), late)
  {
    var n := Next(r, e);
    match e
    case OpenBurrow(_, _, _, _) => OpenBurrowFresh(r, e, late);
    case OpenClient(_, _, _, _, _, _) => OpenClientFresh(r, e, late);
    case AlarmBegin =>
      AlarmBeginWatched(r);
      SweptLater(r.sockets, 0, Expired(r.clock));
      forall i | 0 <= i < |n.sockets| && Registered(n.sockets[i]) ensures FreshAt(n, n.sockets[i], late) {
        assert Later(r.sockets[i], n.sockets[i]);
      }
    case BurrowsRead(read) => BurrowsReadWatched(r, read); FreshLater(r, n, late);
    case ClientsRead(read) => ClientsReadWatched(r, read); FreshLater(r, n, late);
    case AlarmEnd =>
      forall i | 0 <= i < |n.sockets| && Registered(n.sockets[i]) ensures FreshAt(n, n.sockets[i], late) {
        assert Judged(r.sweep.value, r.sockets[i]) && FreshAt(r, r.sockets[i], late);
      }
    case _ =>
      QuietTurnKept(r, e);
      FreshLater(r, n, late);
  }

  /**
   * In every run whose alarms are at most `late`, whatever its reads answer or fail: a registered socket
   * was found live within `BOUND_MS`, one read timeout and twice that, and a Client outlives its session
   * by no more than the timeout and `late`.
   */
  lemma {:induction false} HeldOnlyWhileChecked(events: seq<Event>, late: nat)
    requires CanRun(EMPTY, events) && PunctualRun(events, late)
    ensures Fresh(Run(EMPTY, events), late)
    ensures var r := Run(EMPTY, events);
            forall i :: 0 <= i < |r.sockets| && Registered(r.sockets[i]) ==>
              && r.clock <= r.sockets[i].conn.checkedAt + BOUND_MS + READ_TIMEOUT_MS + 2 * late
              && (r.sockets[i].conn.Client? ==> r.clock <= r.sockets[i].conn.expiresAt + READ_TIMEOUT_MS + late)
    decreases |events|
  {
    if events != [] {
      var before := events[..|events| - 1];
      HeldOnlyWhileChecked(before, late);
      AlarmAlwaysSet(before);
      RunSound(before);
      NextFresh(Run(EMPTY, before), events[|events| - 1], late);
    }
    var r := Run(EMPTY, events);
    assert forall i :: 0 <= i < |r.sockets| && Registered(r.sockets[i]) ==> FreshAt(r, r.sockets[i], late);
  }

  // --- A row that is gone ------------------------------------------------------------------------

  /** What a row is of: a Burrow, or a Client's session. */
  datatype Key = OfBurrow(burrowId: string) | OfSession(session: string)

  predicate HasKey(conn: Conn, key: Key) {
    match key
    case OfBurrow(id) => conn.Burrow? && conn.burrowId == id
    case OfSession(session) => conn.Client? && conn.session == session
  }

  /** No read `e` ends, if begun at `since` or later, finds `key`'s row live. */
  predicate FindsNone(r: Room, e: Event, key: Key, since: int)
    requires Enabled(r, e)
  {
    match e
    case OpenBurrow(account, burrowId, read, _) =>
      key == OfBurrow(burrowId) && since <= r.clock ==> !BurrowAdmitted(r, account, burrowId, read)
    case OpenClient(account, session, _, _, read, _) =>
      key == OfSession(session) && since <= r.clock && read.Answered? ==> !IsLive(read.rows, session, Some(account))
    case BurrowsRead(Answered(rows)) =>
      key.OfBurrow? && since <= r.sweep.value.start ==> !IsLive(rows, key.burrowId, r.account)
    case ClientsRead(Answered(rows)) =>
      key.OfSession? && since <= r.sweep.value.start ==> !IsLive(rows, key.session, r.account)
    case _ => true
  }

  predicate GoneSince(events: seq<Event>, key: Key, since: int)
    requires CanRun(EMPTY, events)
    decreases |events|
  {
    events == [] ||
    (GoneSince(events[..|events| - 1], key, since)
        && FindsNone(Run(EMPTY, events[..|events| - 1]), events[|events| - 1], key, since))
  }

  predicate LastSeenBefore(ss: seq<Socket>, key: Key, since: int) {
    forall i :: 0 <= i < |ss| && Registered(ss[i]) && HasKey(ss[i].conn, key) ==> ss[i].conn.checkedAt < since
  }

  lemma KeptSeen(ss: seq<Socket>, rs: seq<Socket>, key: Key, since: int)
    requires AllKept(ss, rs) && LastSeenBefore(ss, key, since)
    ensures LastSeenBefore(rs, key, since)
  {
    forall i | 0 <= i < |rs| && Registered(rs[i]) && HasKey(rs[i].conn, key) ensures rs[i].conn.checkedAt < since {
      assert Later(ss[i], rs[i]);
    }
  }

  /** A pass moves a socket's check only to what it found. */
  lemma SweptCheck(ss: seq<Socket>, i: nat, p: Pass, j: nat)
    requires i <= |ss| && j < |ss|
    ensures Swept(ss, i, p)[j].conn.checkedAt == ss[j].conn.checkedAt ||
            (Verdict(p, ss[j].conn, ss[j].heard).Live?
                && Swept(ss, i, p)[j].conn.checkedAt == Verdict(p, ss[j].conn, ss[j].heard).start)
    decreases |ss| - i
  {
    if i == |ss| {
    } else if !Registered(ss[i]) {
      SweptCheck(ss, i + 1, p, j);
    } else {
      var act := Verdict(p, ss[i].conn, ss[i].heard);
      var next := Perform(ss, i, act);
      PerformLater(ss, i, act);
      if i == j {
        SweptPassed(next, i + 1, p, j);
      } else {
        assert Alike(ss[j], next[j]);
        SweptCheck(next, i + 1, p, j);
      }
    }
  }

  lemma SweptPassed(ss: seq<Socket>, i: nat, p: Pass, j: nat)
    requires j < i <= |ss|
    ensures Swept(ss, i, p)[j].conn.checkedAt == ss[j].conn.checkedAt
    decreases |ss| - i
  {
    if i == |ss| {
    } else if !Registered(ss[i]) {
      SweptPassed(ss, i + 1, p, j);
    } else {
      var act := Verdict(p, ss[i].conn, ss[i].heard);
      PerformLater(ss, i, act);
      assert Alike(ss[j], Perform(ss, i, act)[j]);
      SweptPassed(Perform(ss, i, act), i + 1, p, j);
    }
  }

  lemma SweptBurrowsCheck(ss: seq<Socket>, ids: seq<string>, rows: map<string, Row>, account: Option<string>,
      start: int, j: nat)
    requires j < |ss|
    ensures var c := SweptBurrows(ss, ids, rows, account, start)[j].conn.checkedAt;
            c == ss[j].conn.checkedAt || (c == start && ss[j].conn.Burrow? && ss[j].conn.burrowId in ids)
    decreases |ids|
  {
    if ids != [] {
      var held := FindBurrow(ss, ids[0]);
      var next := if held.Some? then Perform(ss, held.value, BurrowAct(rows, ids[0], account, start)) else ss;
      if held.Some? {
        PerformLater(ss, held.value, BurrowAct(rows, ids[0], account, start));
        assert Later(ss[j], next[j]);
        assert j != held.value ==> Alike(ss[j], next[j]);
      }
      SweptBurrowsCheck(next, ids[1..], rows, account, start, j);
    }
  }

  lemma ReadSeen(r: Room, e: Event, key: Key, since: int)
    requires (e.BurrowsRead? || e.ClientsRead?) && Enabled(r, e) && Sound(r.sockets)
    requires LastSeenBefore(r.sockets, key, since) && FindsNone(r, e, key, since)
    ensures LastSeenBefore(Next(r, e).sockets, key, since)
  {
    var sw := r.sweep.value;
    var ss := r.sockets;
    var rs := Next(r, e).sockets;
    if e.read.Failed? {
      SweptLater(ss, 0, Unchecked(e.BurrowsRead?, sw.start));
      KeptSeen(ss, rs, key, since);
    } else if e.BurrowsRead? {
      SweptBurrowsLater(ss, sw.burrowIds, e.read.rows, r.account, sw.start);
      forall i | 0 <= i < |rs| && Registered(rs[i]) && HasKey(rs[i].conn, key) ensures rs[i].conn.checkedAt < since {
        assert Later(ss[i], rs[i]);
        SweptBurrowsCheck(ss, sw.burrowIds, e.read.rows, r.account, sw.start, i);
        if ss[i].conn.Burrow? && ss[i].conn.burrowId in sw.burrowIds {
          SweptBurrowsJudged(ss, sw.burrowIds, e.read.rows, r.account, sw.start, i);
        }
      }
    } else {
      var p := SessionsRead(sw.start, sw.sessions, LiveSessions(e.read.rows, sw.sessions, r.account));
      SweptLater(ss, 0, p);
      forall i | 0 <= i < |rs| && Registered(rs[i]) && HasKey(rs[i].conn, key) ensures rs[i].conn.checkedAt < since {
        assert Later(ss[i], rs[i]);
        SweptCheck(ss, 0, p, i);
      }
    }
  }

  lemma OpeningSeen(r: Room, e: Event, key: Key, since: int)
    requires (e.OpenBurrow? || e.OpenClient?) && Enabled(r, e)
    requires LastSeenBefore(r.sockets, key, since) && FindsNone(r, e, key, since)
    ensures LastSeenBefore(Next(r, e).sockets, key, since)
  {
    hide Retire, Swept, Clients, IsLive;
    var rs := Next(r, e).sockets;
    var ms := if e.OpenBurrow? then Displaced(r.sockets, e.burrowId) else MadeRoom(r.sockets, e.at);
    if e.OpenBurrow? {
      var existing := FindBurrow(r.sockets, e.burrowId);
      if existing.Some? { PerformLater(r.sockets, existing.value, Close(Replaced)); }
    } else {
      SweptLater(r.sockets, 0, SilentClients(e.at));
    }
    KeptSeen(r.sockets, ms, key, since);
    if |rs| > |ms| { assert rs[..|ms|] == ms; }
  }

  lemma NextSeen(r: Room, e: Event, key: Key, since: int)
    requires Enabled(r, e) && Sound(r.sockets)
    requires LastSeenBefore(r.sockets, key, since) && FindsNone(r, e, key, since)
    ensures LastSeenBefore(Next(r, e).sockets, key, since)
  {
    if e.OpenBurrow? || e.OpenClient? {
      OpeningSeen(r, e, key, since);
    } else if e.BurrowsRead? || e.ClientsRead? {
      ReadSeen(r, e, key, since);
    } else if e.AlarmBegin? {
      SweptLater(r.sockets, 0, Expired(r.clock));
      KeptSeen(r.sockets, Next(r, e).sockets, key, since);
    } else if !e.AlarmEnd? {
      QuietTurnKept(r, e);
      KeptSeen(r.sockets, Next(r, e).sockets, key, since);
    }
  }

  lemma {:induction false} RunSeen(events: seq<Event>, key: Key, since: int)
    requires CanRun(EMPTY, events) && GoneSince(events, key, since)
    ensures LastSeenBefore(Run(EMPTY, events).sockets, key, since)
    decreases |events|
  {
    if events != [] {
      RunSeen(events[..|events| - 1], key, since);
      RunSound(events[..|events| - 1]);
      NextSeen(Run(EMPTY, events[..|events| - 1]), events[|events| - 1], key, since);
    }
  }

  /**
   * With such alarms, a row gone since `since`, found live by no read begun from then on, holds no
   * socket `BOUND_MS`, one read timeout and twice `late` after: neither a close that never arrived nor an
   * outage of the rows keeps one.
   */
  lemma GoneRowHoldsNothing(events: seq<Event>, key: Key, since: int, late: nat)
    requires CanRun(EMPTY, events) && PunctualRun(events, late) && GoneSince(events, key, since)
    requires Run(EMPTY, events).clock >= since + BOUND_MS + READ_TIMEOUT_MS + 2 * late
    ensures forall i :: 0 <= i < |Run(EMPTY, events).sockets| && HasKey(Run(EMPTY, events).sockets[i].conn, key) ==>
              !Registered(Run(EMPTY, events).sockets[i])
  {
    HeldOnlyWhileChecked(events, late);
    RunSeen(events, key, since);
  }
}
