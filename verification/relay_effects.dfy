/**
 * What each event does to each socket on its ordinary input, in the terms of the room's own state: who is
 * closed and why, who stays, who is told what, and when the alarm is next.
 */
module RelayEffects {
  import opened Wrappers
  import opened RelayModel
  import opened RelayConversations
  import opened RelayTheorems
  import opened RelayAlarm

  // --- One socket acted on, and the others ------------------------------------------------------------

  /** Whose a socket is, and all a pass judges it by but its last check. */
  predicate SameEnd(a: Socket, b: Socket) {
    && a.heard == b.heard && a.conn.openedAt == b.conn.openedAt
    && (a.conn.Burrow? ==> b.conn.Burrow? && a.conn.burrowId == b.conn.burrowId)
    && (a.conn.Client? ==>
          && b.conn.Client? && a.conn.clientId == b.conn.clientId
          && a.conn.session == b.conn.session && a.conn.expiresAt == b.conn.expiresAt)
  }

  /** A socket left as it was but for what it heard of others. */
  predicate Spared(a: Socket, b: Socket) {
    && SameEnd(a, b) && a.log <= b.log && a.closing == b.closing
    && a.open == b.open && a.conn.retired == b.conn.retired && a.conn.checkedAt == b.conn.checkedAt
    && (!(a.open && !a.conn.retired) ==> a == b)
  }

  function Latest(a: int, b: int): int {
    if a < b then b else a
  }

  /** What became of a socket a pass acted on. */
  predicate Fared(a: Socket, act: Act, b: Socket) {
    && SameEnd(a, b)
    && match act
       case Close(reason) => !b.open && b.conn.retired && b.closing == Some(reason)
       case Keep => Spared(a, b)
       case Nudge => Spared(a, b) && Nudged(a, b)
       case Live(start) => Spared(a.(conn := a.conn.(checkedAt := Latest(a.conn.checkedAt, start))), b)
       case LiveNudged(start) =>
         Spared(a.(conn := a.conn.(checkedAt := Latest(a.conn.checkedAt, start))), b) && Nudged(a, b)
  }

  predicate Nudged(a: Socket, b: Socket) {
    |a.log| < |b.log| && PasskeysChanged in b.log[|a.log|..]
  }

  lemma PerformSelf(ss: seq<Socket>, i: nat, act: Act)
    requires i < |ss| && ss[i].open && !ss[i].conn.retired
    ensures |Perform(ss, i, act)| == |ss| && Fared(ss[i], act, Perform(ss, i, act)[i])
  {
  }

  lemma PerformOther(ss: seq<Socket>, i: nat, act: Act, j: nat)
    requires i < |ss| && j < |ss| && j != i
    ensures |Perform(ss, i, act)| == |ss| && Spared(ss[j], Perform(ss, i, act)[j])
  {
  }

  lemma SparedOn(a: Socket, b: Socket, c: Socket)
    requires Spared(a, b) && Spared(b, c)
    ensures Spared(a, c)
  {
  }

  lemma SparedThenFared(a: Socket, b: Socket, act: Act, c: Socket)
    requires Spared(a, b) && Fared(b, act, c) && a.open && !a.conn.retired
    ensures Fared(a, act, c)
  {
    if act.Nudge? || act.LiveNudged? {
      assert c.log[|a.log|..] == c.log[|a.log|..|b.log|] + c.log[|b.log|..];
    }
  }

  lemma FaredThenSpared(a: Socket, act: Act, b: Socket, c: Socket)
    requires Fared(a, act, b) && Spared(b, c)
    ensures Fared(a, act, c)
  {
    if act.Nudge? || act.LiveNudged? {
      assert b.log == c.log[..|b.log|];
      assert c.log[|a.log|..] == b.log[|a.log|..] + c.log[|b.log|..];
    }
  }

  // --- Passes -----------------------------------------------------------------------------------------

  /** A socket a pass has gone by is spared. */
  lemma {:induction false} SweptBefore(ss: seq<Socket>, i: nat, p: Pass, j: nat)
    requires j < i <= |ss|
    ensures Spared(ss[j], Swept(ss, i, p)[j])
    decreases |ss| - i
  {
    hide Perform, Verdict, Spared;
    if i == |ss| {
      SparedItself(ss[j]);
    } else if !Registered(ss[i]) {
      SweptBefore(ss, i + 1, p, j);
    } else {
      var act := Verdict(p, ss[i].conn, ss[i].heard);
      PerformOther(ss, i, act, j);
      SweptBefore(Perform(ss, i, act), i + 1, p, j);
      SparedOn(ss[j], Perform(ss, i, act)[j], Swept(ss, i, p)[j]);
    }
  }

  lemma SparedItself(s: Socket)
    ensures Spared(s, s)
  {
  }

  lemma VerdictSame(p: Pass, a: Socket, b: Socket)
    requires Spared(a, b)
    ensures Verdict(p, a.conn, a.heard) == Verdict(p, b.conn, b.heard)
  {
  }

  /** A pass does to each registered socket what it judges of it as it stood, and to no other. */
  lemma {:induction false} SweptEach(ss: seq<Socket>, i: nat, p: Pass, j: nat)
    requires i <= j < |ss|
    ensures var t := Swept(ss, i, p)[j];
            if ss[j].open && !ss[j].conn.retired then Fared(ss[j], Verdict(p, ss[j].conn, ss[j].heard), t)
                else t == ss[j]
    decreases |ss| - i
  {
    hide Perform, Verdict, Fared;
    if !Registered(ss[i]) {
      if i == j {
        SweptBefore(ss, i + 1, p, j);
      } else {
        SweptEach(ss, i + 1, p, j);
      }
    } else {
      var act := Verdict(p, ss[i].conn, ss[i].heard);
      var next := Perform(ss, i, act);
      if i == j {
        PerformSelf(ss, i, act);
        SweptBefore(next, i + 1, p, j);
        FaredThenSpared(ss[j], act, next[j], Swept(ss, i, p)[j]);
      } else {
        PerformOther(ss, i, act, j);
        SweptEach(next, i + 1, p, j);
        VerdictSame(p, ss[j], next[j]);
        if ss[j].open && !ss[j].conn.retired {
          SparedThenFared(ss[j], next[j], Verdict(p, ss[j].conn, ss[j].heard), Swept(ss, i, p)[j]);
        }
      }
    }
  }

  // --- Calls from the Workers ---------------------------------------------------------------------------

  /** Ended sessions: exactly their Clients are closed, as unauthorized; another account's call does nothing. */
  lemma CloseSessionsExactly(r: Room, account: string, ended: set<string>, j: nat)
    requires j < |r.sockets|
    ensures var n := Next(r, CloseSessions(account, ended));
            var s, t := r.sockets[j], n.sockets[j];
            && |n.sockets| == |r.sockets|
            && (r.account != Some(account) ==> n == r)
            && (r.account == Some(account) ==>
                  && ((t.open && !t.conn.retired) <==>
                      (s.open && !s.conn.retired) && !(s.conn.Client? && s.conn.session in ended))
                  && (s.open && !s.conn.retired && !(t.open && !t.conn.retired) ==> t.closing == Some(Unauthorized)))
  {
    SweptEach(r.sockets, 0, OfSessions(ended), j);
  }

  /** A removed Burrow: exactly its registered socket is closed, as revoked. */
  lemma CloseBurrowExactly(r: Room, account: string, burrowId: string, j: nat)
    requires j < |r.sockets| && Distinct(r.sockets)
    ensures var n := Next(r, CloseBurrow(account, burrowId));
            var s, t := r.sockets[j], n.sockets[j];
            && |n.sockets| == |r.sockets|
            && (r.account != Some(account) ==> n == r)
            && (r.account == Some(account) ==>
                  && ((t.open && !t.conn.retired) <==>
                      (s.open && !s.conn.retired) && !(s.conn.Burrow? && s.conn.burrowId == burrowId))
                  && (s.open && !s.conn.retired && !(t.open && !t.conn.retired) ==> t.closing == Some(Revoked)))
  {
    var ss := r.sockets;
    var held := FindBurrow(ss, burrowId);
    if held.Some? {
      PerformSelf(ss, held.value, Close(Revoked));
      if j != held.value {
        PerformOther(ss, held.value, Close(Revoked), j);
        assert !(Registered(ss[j]) && HoldsBurrow(ss[j], burrowId));
      }
    }
  }

  /** Every registered Burrow is nudged, and nothing else changes. */
  lemma NudgedExactly(r: Room, account: string, j: nat)
    requires j < |r.sockets| && r.account == Some(account)
    ensures var s, t := r.sockets[j], Next(r, NudgeBurrows(account)).sockets[j];
            if s.open && !s.conn.retired && s.conn.Burrow?
            then t.open && !t.conn.retired && t.closing == s.closing && |s.log| <= |t.log| && PasskeysChanged in t.log[|s.log|..]
            else Spared(s, t)
  {
    SweptEach(r.sockets, 0, AllBurrows, j);
  }

  /** Burrows not heard from for over ninety seconds are closed as gone silent, and only they. */
  lemma OnlineExactly(r: Room, account: string, j: nat)
    requires j < |r.sockets| && r.account == Some(account)
    ensures var s, t := r.sockets[j], Next(r, OnlineBurrows(account)).sockets[j];
            var silent := r.clock - (if s.heard.Some? then s.heard.value else s.conn.openedAt) > 90_000;
            && ((t.open && !t.conn.retired) <==> (s.open && !s.conn.retired) && !(s.conn.Burrow? && silent))
            && (s.open && !s.conn.retired && !(t.open && !t.conn.retired) ==> t.closing == Some(GoneSilent))
  {
    SweptEach(r.sockets, 0, SilentBurrows(r.clock), j);
  }

  // --- The alarm --------------------------------------------------------------------------------------

  /** An alarm closes exactly the Clients whose session is over, and asks about exactly what is left. */
  lemma AlarmBeginExactly(r: Room, j: nat)
    requires j < |r.sockets| && Enabled(r, AlarmBegin)
    ensures var n := Next(r, AlarmBegin);
            var s, t := r.sockets[j], n.sockets[j];
            && ((t.open && !t.conn.retired) <==>
                (s.open && !s.conn.retired) && !(s.conn.Client? && s.conn.expiresAt <= r.clock))
            && (s.open && !s.conn.retired && !(t.open && !t.conn.retired) ==> t.closing == Some(Unauthorized))
            && n.sweep.Some? && n.sweep.value.start == r.clock && n.alarm == None
            && (t.open && !t.conn.retired && t.conn.Burrow? ==> t.conn.burrowId in n.sweep.value.burrowIds)
            && (t.open && !t.conn.retired && t.conn.Client? ==> t.conn.session in n.sweep.value.sessions)
  {
    var ss := Swept(r.sockets, 0, Expired(r.clock));
    SweptEach(r.sockets, 0, Expired(r.clock), j);
    if Registered(ss[j]) && ss[j].conn.Burrow? { HeldIdsHold(ss, j); }
  }

  /** A failed read closes exactly the sockets of its role that no read found live for an hour and ten minutes. */
  lemma FailedReadExactly(r: Room, burrows: bool, j: nat)
    requires j < |r.sockets| && Enabled(r, if burrows then BurrowsRead(Failed) else ClientsRead(Failed))
    ensures var s := r.sockets[j];
            var n := Next(r, if burrows then BurrowsRead(Failed) else ClientsRead(Failed));
            var t := n.sockets[j];
            && ((t.open && !t.conn.retired) <==>
                (s.open && !s.conn.retired)
                && !(s.conn.Burrow? == burrows && r.sweep.value.start - s.conn.checkedAt >= 4_200_000))
            && (s.open && !s.conn.retired && !(t.open && !t.conn.retired) ==> t.closing == Some(TryAgainLater))
            && n.sweep.Some? && (if burrows then n.sweep.value.burrowsRead
                else n.sweep.value.clientsRead) == Some(false)
  {
    SweptEach(r.sockets, 0, Unchecked(burrows, r.sweep.value.start), j);
  }

  /** A row that is this account's, its owner entitled. */
  predicate LiveRow(rows: map<string, Row>, id: string, account: Option<string>) {
    id in rows && account == Some(rows[id].userId) && rows[id].entitled
  }

  /** The sessions' rows: an asked Client stays, checked, exactly while its row is live; no one else is touched. */
  lemma ClientsReadExactly(r: Room, rows: map<string, Row>, j: nat)
    requires j < |r.sockets| && Enabled(r, ClientsRead(Answered(rows)))
    ensures var s := r.sockets[j];
            var n := Next(r, ClientsRead(Answered(rows)));
            var t := n.sockets[j];
            var asked := s.conn.Client? && s.conn.session in r.sweep.value.sessions;
            && ((t.open && !t.conn.retired) <==>
                (s.open && !s.conn.retired) && !(asked && !LiveRow(rows, s.conn.session, r.account)))
            && (s.open && !s.conn.retired && !(t.open && !t.conn.retired) ==> t.closing == Some(Unauthorized))
            && (t.open && !t.conn.retired && asked ==>
                t.conn.checkedAt == Latest(s.conn.checkedAt, r.sweep.value.start))
            && n.sweep.Some? && n.sweep.value.clientsRead == Some(true)
  {
    var sw := r.sweep.value;
    SweptEach(r.sockets, 0, SessionsRead(sw.start, sw.sessions, LiveSessions(rows, sw.sessions, r.account)), j);
  }

  lemma {:induction false} SweptBurrowsOther(ss: seq<Socket>, ids: seq<string>, rows: map<string, Row>,
      account: Option<string>, start: int, j: nat)
    requires j < |ss| && !(ss[j].open && !ss[j].conn.retired && ss[j].conn.Burrow? && ss[j].conn.burrowId in ids)
    ensures Spared(ss[j], SweptBurrows(ss, ids, rows, account, start)[j])
    decreases |ids|
  {
    hide Perform, BurrowAct;
    if ids == [] {
      SparedItself(ss[j]);
    } else {
      var held := FindBurrow(ss, ids[0]);
      var next := if held.Some? then Perform(ss, held.value, BurrowAct(rows, ids[0], account, start)) else ss;
      SparedItself(ss[j]);
      if held.Some? { PerformOther(ss, held.value, BurrowAct(rows, ids[0], account, start), j); }
      SweptBurrowsOther(next, ids[1..], rows, account, start, j);
      SparedOn(ss[j], next[j], SweptBurrows(ss, ids, rows, account, start)[j]);
    }
  }

  /** What is done to the registered socket of an asked Burrow. */
  lemma {:induction false} SweptBurrowsEach(ss: seq<Socket>, ids: seq<string>, rows: map<string, Row>,
      account: Option<string>, start: int, j: nat)
    requires j < |ss| && Sound(ss) && ss[j].open && !ss[j].conn.retired && ss[j].conn.Burrow?
             && ss[j].conn.burrowId in ids
    ensures Fared(ss[j], BurrowAct(rows, ss[j].conn.burrowId, account, start),
            SweptBurrows(ss, ids, rows, account, start)[j])
    decreases |ids|
  {
    hide Perform, BurrowAct, Spared, Fared, Faithful, Anchored;
    var id := ss[j].conn.burrowId;
    var act := BurrowAct(rows, id, account, start);
    var held := FindBurrow(ss, ids[0]);
    var next := if held.Some? then Perform(ss, held.value, BurrowAct(rows, ids[0], account, start)) else ss;
    var end := SweptBurrows(ss, ids, rows, account, start)[j];
    if held.Some? {
      PerformKeeps(ss, held.value, BurrowAct(rows, ids[0], account, start));
    }
    if id == ids[0] {
      assert HoldsBurrow(ss[j], ids[0]);
      assert HoldsBurrow(ss[held.value], ss[j].conn.burrowId);
      PerformSelf(ss, j, act);
      if next[j].open && !next[j].conn.retired && id in ids[1..] {
        FaredEnd(ss[j], act, next[j]);
        SweptBurrowsEach(next, ids[1..], rows, account, start, j);
        FaredTwice(ss[j], act, next[j], end);
      } else {
        FaredEnd(ss[j], act, next[j]);
        SweptBurrowsOther(next, ids[1..], rows, account, start, j);
        FaredThenSpared(ss[j], act, next[j], end);
      }
    } else {
      if held.Some? {
        PerformOther(ss, held.value, BurrowAct(rows, ids[0], account, start), j);
        SparedEnd(ss[j], next[j]);
      } else {
        SparedItself(ss[j]);
      }
      SweptBurrowsEach(next, ids[1..], rows, account, start, j);
      SparedThenFared(ss[j], next[j], act, end);
    }
  }

  lemma FaredEnd(a: Socket, act: Act, b: Socket)
    requires Fared(a, act, b)
    ensures a.conn.Burrow? ==> b.conn.Burrow? && b.conn.burrowId == a.conn.burrowId
  {
  }

  lemma SparedEnd(a: Socket, b: Socket)
    requires Spared(a, b)
    ensures a.open == b.open && a.conn.retired == b.conn.retired
    ensures a.conn.Burrow? ==> b.conn.Burrow? && b.conn.burrowId == a.conn.burrowId
  {
  }

  lemma FaredTwice(a: Socket, act: Act, b: Socket, c: Socket)
    requires Fared(a, act, b) && Fared(b, act, c) && b.open && !b.conn.retired && a.open && !a.conn.retired
    ensures Fared(a, act, c)
  {
    if act.Nudge? || act.LiveNudged? {
      assert c.log[|a.log|..] == c.log[|a.log|..|b.log|] + c.log[|b.log|..];
    }
  }

  /**
   * The Burrows' rows: an asked Burrow still registered stays, checked and nudged, exactly while its row is live;
   * otherwise it is closed as not entitled where the row is its account's, else as revoked. No one else is touched.
   */
  lemma BurrowsReadExactly(r: Room, rows: map<string, Row>, j: nat)
    requires j < |r.sockets| && Enabled(r, BurrowsRead(Answered(rows))) && Sound(r.sockets)
    ensures var s := r.sockets[j];
            var n := Next(r, BurrowsRead(Answered(rows)));
            var t := n.sockets[j];
            var asked := s.open && !s.conn.retired && s.conn.Burrow? && s.conn.burrowId in r.sweep.value.burrowIds;
            && (!asked ==> Spared(s, t))
            && (asked && LiveRow(rows, s.conn.burrowId, r.account) ==>
                  && t.open && !t.conn.retired && t.closing == s.closing && |s.log| <= |t.log|
                  && PasskeysChanged in t.log[|s.log|..]
                  && t.conn.checkedAt == Latest(s.conn.checkedAt, r.sweep.value.start))
            && (asked && !LiveRow(rows, s.conn.burrowId, r.account) ==>
                  && !t.open && t.conn.retired
                  && t.closing == Some(if s.conn.burrowId in rows && r.account == Some(rows[s.conn.burrowId].userId)
                                       then NotEntitled else Revoked))
            && n.sweep.Some? && n.sweep.value.burrowsRead == Some(true)
  {
    var sw := r.sweep.value;
    var s := r.sockets[j];
    if s.open && !s.conn.retired && s.conn.Burrow? && s.conn.burrowId in sw.burrowIds {
      SweptBurrowsEach(r.sockets, sw.burrowIds, rows, r.account, sw.start, j);
    } else {
      SweptBurrowsOther(r.sockets, sw.burrowIds, rows, r.account, sw.start, j);
    }
  }

  /**
   * The alarm's end: cleared when nothing is registered; else an hour after the alarm began, a minute if a read
   * failed, or a registered Client's earlier expiry.
   */
  lemma AlarmEndExactly(r: Room)
    requires Enabled(r, AlarmEnd)
    ensures var n := Next(r, AlarmEnd);
            var sw := r.sweep.value;
            var due := sw.start + if sw.burrowsRead == Some(true) && sw.clientsRead == Some(true) then 3_600_000
                else 60_000;
            && n.sweep == None && n.sockets == r.sockets
            && (n.alarm.None? <==> forall j :: 0 <= j < |r.sockets| ==>
                !(r.sockets[j].open && !r.sockets[j].conn.retired))
            && (n.alarm.Some? ==>
                  && n.alarm.value <= due
                  && (n.alarm.value == due || exists j :: HasExpiry(r.sockets, j, n.alarm.value))
                  && forall j :: 0 <= j < |r.sockets| && r.sockets[j].open && !r.sockets[j].conn.retired && r.sockets[j].conn.Client? ==>
                       n.alarm.value <= r.sockets[j].conn.expiresAt)
  {
    var sw := r.sweep.value;
    var due := sw.start + if sw.burrowsRead == Some(true) && sw.clientsRead == Some(true) then 3_600_000 else 60_000;
    EarliestIs(r.sockets, due);
    assert HoldsAny(r.sockets) <==> exists j :: 0 <= j < |r.sockets| && Registered(r.sockets[j]);
  }

  predicate HasExpiry(ss: seq<Socket>, j: int, time: int) {
    0 <= j < |ss| && ss[j].open && !ss[j].conn.retired && ss[j].conn.Client? && ss[j].conn.expiresAt == time
  }

  lemma {:induction false} EarliestIs(ss: seq<Socket>, time: int)
    ensures var e := EarliestExpiry(ss, time);
            && e <= time && (e == time || exists j :: HasExpiry(ss, j, e))
            && forall j :: 0 <= j < |ss| && ss[j].open && !ss[j].conn.retired && ss[j].conn.Client? ==>
                e <= ss[j].conn.expiresAt
  {
    if ss != [] {
      var n := |ss| - 1;
      EarliestIs(ss[..n], time);
      var e := EarliestExpiry(ss, time);
      if exists j :: HasExpiry(ss[..n], j, e) {
        var j :| HasExpiry(ss[..n], j, e);
        assert HasExpiry(ss, j, e);
      } else if e != time {
        assert HasExpiry(ss, n, e);
      }
    }
  }

  // --- A teardown -------------------------------------------------------------------------------------

  /** What a socket is once `gone` is torn down. */
  function ToldOf(gone: Conn, s: Socket): Socket {
    if !(s.open && !s.conn.retired) then s
    else if gone.Burrow? && s.conn.Client? && s.conn.bound == Some(gone.burrowId)
    then s.(conn := s.conn.(bound := None), log := s.log + [BurrowGone])
    else if gone.Client? && s.conn.Burrow? && gone.bound == Some(s.conn.burrowId)
    then s.(log := s.log + [ClientGone(gone.clientId)])
    else s
  }

  function ShutFor(s: Socket, reason: CloseReason): Socket {
    s.(open := false, closing := Some(reason), conn := s.conn.(retired := true))
  }

  lemma UnregisterTells(ss: seq<Socket>, i: nat, j: nat)
    requires i < |ss| && j < |ss| && Distinct(ss)
    ensures |Unregister(ss, i)| == |ss|
    ensures Unregister(ss, i)[j] == if j == i then ss[i].(conn := ss[i].conn.(retired := true))
            else ToldOf(ss[i].conn, ss[j])
  {
    var conn := ss[i].conn;
    if conn.Client? && conn.bound.Some? {
      var b := FindBurrow(MarkRetired(ss, i), conn.bound.value);
      if b.Some? {
        assert ss[b.value] == MarkRetired(ss, i)[b.value];
        assert HoldsBurrow(ss[j], conn.bound.value) ==> HoldsBurrow(ss[j], ss[b.value].conn.burrowId);
      } else if j != i {
        assert MarkRetired(ss, i)[j] == ss[j];
      }
    }
  }

  /**
   * A socket's close handler: the Clients bound to a Burrow are unbound and told it is gone, the Burrow a Client was
   * bound to is told it is gone, and no one else hears; one the room retired already is torn down no more.
   */
  lemma ClosedExactly(r: Room, i: nat, j: nat)
    requires i < |r.sockets| && j < |r.sockets| && Enabled(r, Closed(i)) && Distinct(r.sockets)
    ensures var n := Next(r, Closed(i));
            && (r.sockets[i].conn.retired ==> n == r)
            && (!r.sockets[i].conn.retired ==>
                  && |n.sockets| == |r.sockets|
                  && n.sockets[j] == if j == i then r.sockets[i].(conn := r.sockets[i].conn.(retired := true))
                                     else ToldOf(r.sockets[i].conn, r.sockets[j]))
  {
    UnregisterTells(r.sockets, i, j);
  }

  /** Both halves of a close at once: the peer's end shut, then its handler. */
  lemma DisconnectExactly(r: Room, i: nat, j: nat)
    requires i < |r.sockets| && j < |r.sockets| && Enabled(r, Disconnect(i)) && Distinct(r.sockets)
    ensures var n := Next(r, Disconnect(i));
            && |n.sockets| == |r.sockets|
            && n.sockets[j] == if j == i then r.sockets[i].(open := false, conn := r.sockets[i].conn.(retired := true))
                               else if r.sockets[i].conn.retired then r.sockets[j]
                               else ToldOf(r.sockets[i].conn, r.sockets[j])
  {
    var ss := AfterLeaving(r.sockets, i);
    DistinctKept(r.sockets, ss);
    UnregisterTells(ss, i, j);
  }

  /** A socket the room retires, as what is left of it and as what others hear of it. */
  lemma RetireTells(ss: seq<Socket>, i: nat, reason: CloseReason, j: nat)
    requires i < |ss| && j < |ss| && Distinct(ss)
    ensures |Retire(ss, i, reason)| == |ss|
    ensures Retire(ss, i, reason)[j] ==
            if j == i then ShutFor(ss[i], reason)
            else ToldOf(ss[i].conn, ss[j])
  {
    UnregisterTells(ss, i, j);
  }

  // --- A message --------------------------------------------------------------------------------------

  /** What each socket is after a message not delivered: refused, dropped, or ending a socket. */
  lemma UndeliveredExactly(r: Room, i: nat, m: Message, j: nat)
    requires i < |r.sockets| && j < |r.sockets| && Distinct(r.sockets)
    ensures var s := r.sockets[i];
            var n := Next(r, Receive(i, m));
            var live := s.open && !s.conn.retired;
            && (!live || m.Binary? ==> n == r)
            && (live && m.Oversized? ==>
                  && |n.sockets| == |r.sockets|
                  && n.sockets[j] == if j == i then ShutFor(s, FrameTooLarge) else ToldOf(s.conn, r.sockets[j]))
            && (live && m.Text? && s.conn.Client? && m.asClient.BadFrame? ==>
                  && |n.sockets| == |r.sockets|
                  && n.sockets[j] == if j == i then s.(log := s.log + [Refused(m.asClient.error)]) else r.sockets[j])
            && (live && m.Text? && s.conn.Burrow? && m.asBurrow.NoFrame? ==> n == r)
  {
    if r.sockets[i].open && !r.sockets[i].conn.retired && m.Oversized? {
      RetireTells(r.sockets, i, FrameTooLarge, j);
    }
  }

  /** A Client's frame for a Burrow that holds no socket here: the Client hears it is offline, and no one else. */
  lemma OfflineExactly(r: Room, c: nat, burrowId: string, step: Step, payload: string, j: nat)
    requires c < |r.sockets| && j < |r.sockets|
    requires r.sockets[c].open && !r.sockets[c].conn.retired && r.sockets[c].conn.Client?
    requires forall b :: 0 <= b < |r.sockets| && r.sockets[b].conn.Burrow? && r.sockets[b].conn.burrowId == burrowId ==>
               !(r.sockets[b].open && !r.sockets[b].conn.retired)
    ensures var n := Next(r, Receive(c, Text(ClientFrame(burrowId, step, payload), NoFrame)));
            && |n.sockets| == |r.sockets|
            && n.sockets[j] == if j == c then r.sockets[c].(log := r.sockets[c].log + [Offline(burrowId)])
                else r.sockets[j]
  {
    assert FindBurrow(r.sockets, burrowId).None?;
  }

  /**
   * A Client's frame for a Burrow not heard from for over ninety seconds: the Burrow is closed as gone silent, its
   * Clients told so, and the sender hears it is offline.
   */
  lemma SilentBurrowExactly(r: Room, c: nat, b: nat, step: Step, payload: string, j: nat)
    requires c < |r.sockets| && b < |r.sockets| && j < |r.sockets| && Distinct(r.sockets)
    requires r.sockets[c].open && !r.sockets[c].conn.retired && r.sockets[c].conn.Client?
    requires r.sockets[b].open && !r.sockets[b].conn.retired && r.sockets[b].conn.Burrow?
    requires r.clock - (if r.sockets[b].heard.Some? then r.sockets[b].heard.value
             else r.sockets[b].conn.openedAt) > 90_000
    ensures var id := r.sockets[b].conn.burrowId;
            var n := Next(r, Receive(c, Text(ClientFrame(id, step, payload), NoFrame)));
            var told := ToldOf(r.sockets[b].conn, r.sockets[j]);
            && |n.sockets| == |r.sockets|
            && n.sockets[j] == if j == b then ShutFor(r.sockets[b], GoneSilent)
                               else if j == c then told.(log := told.log + [Offline(id)])
                               else told
  {
    var f := FindBurrow(r.sockets, r.sockets[b].conn.burrowId);
    assert HoldsBurrow(r.sockets[b], r.sockets[b].conn.burrowId);
    assert HoldsBurrow(r.sockets[f.value], r.sockets[b].conn.burrowId);
    RetireTells(r.sockets, b, GoneSilent, j);
    RetireTells(r.sockets, b, GoneSilent, c);
  }

  /** A frame past an `init`, from a Client bound elsewhere or nowhere, for a live Burrow: nothing happens. */
  lemma UnboundExactly(r: Room, c: nat, b: nat, kind: string, payload: string)
    requires c < |r.sockets| && b < |r.sockets| && Distinct(r.sockets)
    requires r.sockets[c].open && !r.sockets[c].conn.retired && r.sockets[c].conn.Client?
    requires r.sockets[b].open && !r.sockets[b].conn.retired && r.sockets[b].conn.Burrow?
    requires r.clock - (if r.sockets[b].heard.Some? then r.sockets[b].heard.value
             else r.sockets[b].conn.openedAt) <= 90_000
    requires r.sockets[c].conn.bound != Some(r.sockets[b].conn.burrowId)
    ensures Next(r, Receive(c, Text(ClientFrame(r.sockets[b].conn.burrowId, Later(kind), payload), NoFrame))) == r
  {
    var f := FindBurrow(r.sockets, r.sockets[b].conn.burrowId);
    assert HoldsBurrow(r.sockets[b], r.sockets[b].conn.burrowId);
    assert HoldsBurrow(r.sockets[f.value], r.sockets[b].conn.burrowId);
  }

  // --- An upgrade -------------------------------------------------------------------------------------

  /** The alarm brought to `time` unless it was already as soon. */
  predicate BroughtTo(before: Option<int>, after: Option<int>, time: int) {
    if before.Some? && before.value <= time then after == before else after == Some(time)
  }

  /**
   * A Burrow is let in exactly when the room is the account's and its row, the account's and entitled, was read. It
   * then holds the last socket, an hour's alarm set, and the one it held before is closed as replaced.
   */
  lemma OpenBurrowExactly(r: Room, account: string, burrowId: string, read: Read, at: int, j: nat)
    requires Enabled(r, OpenBurrow(account, burrowId, read, at)) && Distinct(r.sockets)
    ensures var n := Next(r, OpenBurrow(account, burrowId, read, at));
            var mine := account != "" && (r.account == None || r.account == Some(account));
            var admitted := mine && read.Answered? && LiveRow(read.rows, burrowId, Some(account));
            && n.account == (if account != "" && r.account == None then Some(account) else r.account)
            && n.sweep == r.sweep
            && (!admitted ==> n.sockets == r.sockets && n.alarm == r.alarm)
            && (admitted ==>
                  && |n.sockets| == |r.sockets| + 1
                  && n.sockets[|r.sockets|] == Socket(Burrow(burrowId, at, r.clock, false), true, None, [], None)
                  && BroughtTo(r.alarm, n.alarm, at + 3_600_000)
                  && (j < |r.sockets| ==>
                        var s, t := r.sockets[j], n.sockets[j];
                        && ((t.open && !t.conn.retired) <==>
                            (s.open && !s.conn.retired) && !(s.conn.Burrow? && s.conn.burrowId == burrowId))
                        && (s.open && !s.conn.retired && !(t.open && !t.conn.retired) ==> t.closing == Some(Replaced))))
  {
    var ss := r.sockets;
    var held := FindBurrow(ss, burrowId);
    if held.Some? && j < |ss| {
      RetireTells(ss, held.value, Replaced, j);
      if j != held.value {
        assert !(Registered(ss[j]) && HoldsBurrow(ss[j], burrowId));
      }
    }
  }

  function Held(ss: seq<Socket>): set<nat> {
    set j: nat | j < |ss| && ss[j].open && !ss[j].conn.retired && ss[j].conn.Client?
  }

  /** The registered Clients heard from within ninety seconds. */
  function HeldLive(ss: seq<Socket>, now: int): set<nat> {
    set j: nat | j < |ss| && ss[j].open && !ss[j].conn.retired && ss[j].conn.Client?
                 && now - (if ss[j].heard.Some? then ss[j].heard.value else ss[j].conn.openedAt) <= 90_000
  }

  lemma {:induction false} ClientsAreHeld(ss: seq<Socket>)
    ensures Clients(ss) == |Held(ss)|
  {
    if ss != [] {
      var n := |ss| - 1;
      ClientsAreHeld(ss[..n]);
      assert Held(ss) == Held(ss[..n]) + if Registered(ss[n]) && ss[n].conn.Client? then {n} else {};
    }
  }

  lemma AfterSilent(ss: seq<Socket>, now: int)
    ensures Held(Swept(ss, 0, SilentClients(now))) == HeldLive(ss, now)
  {
    var ts := Swept(ss, 0, SilentClients(now));
    forall j: nat | j < |ss| ensures j in Held(ts) <==> j in HeldLive(ss, now) {
      SweptEach(ss, 0, SilentClients(now), j);
    }
  }

  lemma SilentSwept(ss: seq<Socket>, now: int, j: nat)
    requires j < |ss|
    ensures var s, t := ss[j], Swept(ss, 0, SilentClients(now))[j];
            && ((t.open && !t.conn.retired) <==>
                (s.open && !s.conn.retired) && (s.conn.Client? ==> j in HeldLive(ss, now)))
            && (s.open && !s.conn.retired && !(t.open && !t.conn.retired) ==> t.closing == Some(GoneSilent))
  {
    hide Swept;
    SweptEach(ss, 0, SilentClients(now), j);
  }

  /**
   * A Client is let in exactly when the room is the account's, its session named and unexpired, its row the account's
   * and entitled, and fewer than 64 Clients are held, or are once those not heard from for over ninety seconds are
   * not counted. Only at the cap are those closed, and no other socket ever is.
   */
  lemma OpenClientExactly(r: Room, account: string, session: string, expiresAt: int, clientId: string, read: Read,
      at: int, j: nat)
    requires Enabled(r, OpenClient(account, session, expiresAt, clientId, read, at))
    ensures var n := Next(r, OpenClient(account, session, expiresAt, clientId, read, at));
            var mine := account != "" && (r.account == None || r.account == Some(account));
            var known := mine && session != "" && expiresAt > r.clock && read.Answered?
                         && LiveRow(read.rows, session, Some(account));
            var full := |Held(r.sockets)| >= 64;
            var admitted := known && (full ==> |HeldLive(r.sockets, at)| < 64);
            && n.account == (if account != "" && r.account == None then Some(account) else r.account)
            && n.sweep == r.sweep
            && |n.sockets| == |r.sockets| + (if admitted then 1 else 0)
            && (admitted ==>
                  && n.sockets[|r.sockets|] ==
                     Socket(Client(clientId, session, expiresAt, None, at, r.clock, false), true, None, [], None)
                  && BroughtTo(r.alarm, n.alarm, if expiresAt <= at + 3_600_000 then expiresAt else at + 3_600_000))
            && (!admitted ==> n.alarm == r.alarm)
            && (j < |r.sockets| ==>
                  var s, t := r.sockets[j], n.sockets[j];
                  && (!(known && full) ==> t == s)
                  && (known && full ==>
                        && ((t.open && !t.conn.retired) <==>
                            (s.open && !s.conn.retired) && (s.conn.Client? ==> j in HeldLive(r.sockets, at)))
                        && (s.open && !s.conn.retired && !(t.open && !t.conn.retired) ==>
                            t.closing == Some(GoneSilent))))
  {
    hide Swept, Held, HeldLive;
    ClientsAreHeld(r.sockets);
    AfterSilent(r.sockets, at);
    ClientsAreHeld(Swept(r.sockets, 0, SilentClients(at)));
    if j < |r.sockets| { SilentSwept(r.sockets, at, j); }
  }

  // --- What is listed ---------------------------------------------------------------------------------

  /** No id twice. */
  predicate Once(ids: seq<string>) {
    forall a, b :: 0 <= a < b < |ids| ==> ids[a] != ids[b]
  }

  predicate HasId(ss: seq<Socket>, j: int, id: string) {
    0 <= j < |ss| && ss[j].open && !ss[j].conn.retired && ss[j].conn.Burrow? && ss[j].conn.burrowId == id
  }

  /** The ids listed are those of registered Burrows. */
  lemma {:induction false} ListedAre(ss: seq<Socket>, id: string)
    ensures id in HeldBurrowIds(ss) <==> exists j :: HasId(ss, j, id)
  {
    if ss != [] {
      var n := |ss| - 1;
      ListedAre(ss[..n], id);
      if j :| HasId(ss[..n], j, id) {
        assert HasId(ss, j, id);
      }
      if j :| HasId(ss, j, id) {
        assert j < n ==> HasId(ss[..n], j, id);
      }
      assert HasId(ss, n, id) ==> id in HeldBurrowIds(ss);
    }
  }

  /** The ids listed are those of registered Burrows, each once. */
  lemma {:induction false} ListedExactly(ss: seq<Socket>)
    requires Distinct(ss)
    ensures var ids := HeldBurrowIds(ss);
            && (forall id :: id in ids <==> exists j :: HasId(ss, j, id))
            && Once(ids)
  {
    forall id ensures id in HeldBurrowIds(ss) <==> exists j :: HasId(ss, j, id) {
      ListedAre(ss, id);
    }
    if ss != [] {
      var n := |ss| - 1;
      assert forall j :: 0 <= j < n ==> ss[..n][j] == ss[j];
      ListedExactly(ss[..n]);
      var s := ss[n];
      if Registered(s) && s.conn.Burrow? {
        var id := s.conn.burrowId;
        ListedAre(ss[..n], id);
        forall j ensures !HasId(ss[..n], j, id) {
          assert HasId(ss[..n], j, id) ==> HoldsBurrow(ss[j], ss[n].conn.burrowId);
        }
        OnceMore(HeldBurrowIds(ss[..n]), id);
        assert HeldBurrowIds(ss) == HeldBurrowIds(ss[..n]) + [id];
      } else {
        assert HeldBurrowIds(ss) == HeldBurrowIds(ss[..n]) + [] == HeldBurrowIds(ss[..n]);
      }
    }
  }

  lemma OnceMore(ids: seq<string>, id: string)
    requires Once(ids) && id !in ids
    ensures Once(ids + [id])
  {
  }
}
