/**
 * `RelayRoom`, the object. It routes by attachments taken out as copies, edited, and written back;
 * each method is proved to leave the state `RelayModel.Next` gives for its event, so no copy it
 * writes back undoes a newer one.
 */
module RelayObject {
  import opened Wrappers
  import opened RelayModel

  /** A socket and the copy of its attachment taken when it was looked up. */
  datatype Held = Held(at: nat, conn: Conn)

  /** How an upgrade is answered: with a status, by a close, or with the socket. */
  datatype Reply = Status(code: nat) | Closing(reason: CloseReason) | Accepted

  /** Every registered socket of one role from `ss[i]` on, with its attachment. */
  function HeldFrom(ss: seq<Socket>, i: nat, burrows: bool): seq<Held>
    requires i <= |ss|
    decreases |ss| - i
  {
    if i == |ss| then []
    else if Registered(ss[i]) && ss[i].conn.Burrow? == burrows then [Held(i, ss[i].conn)] + HeldFrom(ss, i + 1, burrows)
    else HeldFrom(ss, i + 1, burrows)
  }

  /** The role a pass acts on. */
  function OnBurrows(p: Pass): bool {
    p.SilentBurrows? || p.AllBurrows? || (p.Unchecked? && p.burrows)
  }

  lemma NextHeld(ss: seq<Socket>, i: nat, burrows: bool)
    requires i <= |ss|
    ensures HeldFrom(ss, i, burrows) == [] ==> forall j :: i <= j < |ss| ==>
            !(Registered(ss[j]) && ss[j].conn.Burrow? == burrows)
    ensures HeldFrom(ss, i, burrows) != [] ==>
              var h := HeldFrom(ss, i, burrows)[0];
              && i <= h.at < |ss| && Registered(ss[h.at]) && ss[h.at].conn == h.conn && h.conn.Burrow? == burrows
              && HeldFrom(ss, i, burrows)[1..] == HeldFrom(ss, h.at + 1, burrows)
              && forall j :: i <= j < h.at ==> !(Registered(ss[j]) && ss[j].conn.Burrow? == burrows)
    decreases |ss| - i
  {
    if i < |ss| { NextHeld(ss, i + 1, burrows); }
  }

  lemma HeldSame(ss: seq<Socket>, rs: seq<Socket>, i: nat, burrows: bool)
    requires i <= |ss| == |rs|
    requires forall j :: i <= j < |ss| ==> ss[j].conn.Burrow? == rs[j].conn.Burrow?
    requires forall j :: i <= j < |ss| && ss[j].conn.Burrow? == burrows ==>
             ss[j].conn == rs[j].conn && ss[j].open == rs[j].open
    ensures HeldFrom(ss, i, burrows) == HeldFrom(rs, i, burrows)
    decreases |ss| - i
  {
    if i < |ss| { HeldSame(ss, rs, i + 1, burrows); }
  }

  lemma SweptSkips(ss: seq<Socket>, i: nat, j: nat, p: Pass)
    requires i <= j <= |ss|
    requires forall x :: i <= x < j ==> !(Registered(ss[x]) && ss[x].conn.Burrow? == OnBurrows(p))
    ensures Swept(ss, i, p) == Swept(ss, j, p)
    decreases j - i
  {
    if i < j { SweptSkips(ss, i + 1, j, p); }
  }

  /** What is done to one socket leaves every other of its role as it was. */
  lemma PerformLeavesRole(ss: seq<Socket>, i: nat, act: Act)
    requires i < |ss|
    ensures |Perform(ss, i, act)| == |ss|
    ensures forall j :: 0 <= j < |ss| ==> ss[j].conn.Burrow? == Perform(ss, i, act)[j].conn.Burrow?
    ensures forall j :: 0 <= j < |ss| && j != i && ss[j].conn.Burrow? == ss[i].conn.Burrow? ==>
              Perform(ss, i, act)[j].conn == ss[j].conn && Perform(ss, i, act)[j].open == ss[j].open
  {
  }

  lemma SweptActs(ss: seq<Socket>, i: nat, p: Pass)
    requires i < |ss| && Registered(ss[i])
    ensures var next := Perform(ss, i, Verdict(p, ss[i].conn, ss[i].heard));
            |next| == |ss| && Swept(ss, i, p) == Swept(next, i + 1, p)
  {
  }

  lemma SweptEnds(ss: seq<Socket>, p: Pass)
    ensures Swept(ss, |ss|, p) == ss
  {
  }

  class RelayRoom {
    var sockets: seq<Socket>
    var alarm: Option<int>
    var account: Option<string>
    var clock: int
    /** The locals of an alarm waiting on its reads. */
    var sweep: Option<Sweep>

    ghost function State(): Room
      reads this
    {
      Room(sockets, alarm, account, clock, sweep)
    }

    constructor ()
      ensures State() == EMPTY
    {
      sockets, alarm, account, clock, sweep := [], None, None, 0, None;
    }

    // --- What the object holds ------------------------------------------------------

    method HeldOf(burrows: bool) returns (held: seq<Held>)
      ensures held == HeldFrom(sockets, 0, burrows)
    {
      held := [];
      var i := |sockets|;
      while i > 0
        invariant 0 <= i <= |sockets|
        invariant held == HeldFrom(sockets, i, burrows)
      {
        i := i - 1;
        if Registered(sockets[i]) && sockets[i].conn.Burrow? == burrows {
          held := [Held(i, sockets[i].conn)] + held;
        }
      }
    }

    method Send(i: nat, e: Entry)
      requires i < |sockets|
      modifies this`sockets
      ensures sockets == PostAt(old(sockets), i, e)
    {
      if sockets[i].open {
        sockets := sockets[i := sockets[i].(log := sockets[i].log + [e])];
      }
    }

    method WriteBack(i: nat, conn: Conn)
      requires i < |sockets|
      modifies this`sockets
      ensures sockets == old(sockets)[i := old(sockets)[i].(conn := conn)]
    {
      sockets := sockets[i := sockets[i].(conn := conn)];
    }

    // --- Closing ----------------------------------------------------------------------

    /** Every Client bound to a Burrow that is gone unbound and told so, each from the copy taken first. */
    method UnbindClients(burrowId: string)
      modifies this`sockets
      ensures sockets == UnbindAll(old(sockets), burrowId)
    {
      hide HeldFrom;
      ghost var marked := sockets;
      var clients := HeldOf(false);
      var k := 0;
      ghost var done := 0;
      while k < |clients|
        invariant 0 <= k <= |clients| && 0 <= done <= |marked| == |sockets|
        invariant clients[k..] == HeldFrom(sockets, done, false)
        invariant forall j :: 0 <= j < |marked| ==>
                  sockets[j] == if j < done then Unbound(marked[j], burrowId) else marked[j]
      {
        var client := clients[k];
        NextHeld(sockets, done, false);
        ghost var before := sockets;
        assert clients[k..][0] == client && clients[k..][1..] == clients[k + 1..];
        if BoundTo(sockets[client.at].(conn := client.conn), burrowId) {
          Send(client.at, BurrowGone);
          WriteBack(client.at, client.conn.(bound := None));
        }
        HeldSame(before, sockets, client.at + 1, false);
        k := k + 1;
        done := client.at + 1;
      }
      NextHeld(sockets, done, false);
      assert sockets == UnbindAll(marked, burrowId);
    }

    /** The teardown of a socket, from the copy of its attachment taken at its lookup. */
    method Teardown(held: Held)
      requires held.at < |sockets| && sockets[held.at].conn == held.conn
      modifies this`sockets
      ensures sockets == Unregister(old(sockets), held.at)
    {
      var conn := held.conn.(retired := true);
      WriteBack(held.at, conn);
      assert sockets == MarkRetired(old(sockets), held.at);
      match conn {
        case Burrow(burrowId, _, _, _) => UnbindClients(burrowId);
        case Client(clientId, _, _, bound, _, _, _) =>
          if bound.Some? {
            var burrow := FindBurrow(sockets, bound.value);
            if burrow.Some? {
              Send(burrow.value, ClientGone(clientId));
            }
          }
      }
    }

    method RetireHeld(held: Held, reason: CloseReason)
      requires held.at < |sockets| && sockets[held.at].conn == held.conn
      modifies this`sockets
      ensures sockets == Retire(old(sockets), held.at, reason)
    {
      Teardown(held);
      sockets := sockets[held.at := sockets[held.at].(open := false, closing := Some(reason))];
    }

    /** Whether a socket stopped answering pings; it is retired here if so. */
    method WentSilent(held: Held) returns (silent: bool)
      requires held.at < |sockets| && sockets[held.at].conn == held.conn
      modifies this`sockets
      ensures silent == Silent(old(sockets)[held.at], clock)
      ensures sockets == if silent then Retire(old(sockets), held.at, GoneSilent) else old(sockets)
    {
      var heard := sockets[held.at].heard;
      var lastHeard := if heard.Some? then heard.value else held.conn.openedAt;
      if clock - lastHeard <= IDLE_TIMEOUT_MS {
        return false;
      }
      RetireHeld(held, GoneSilent);
      return true;
    }

    method Checked(held: Held, start: int)
      requires held.at < |sockets| && sockets[held.at].conn == held.conn
      modifies this`sockets
      ensures sockets == Recheck(old(sockets), held.at, start)
    {
      if held.conn.checkedAt < start {
        WriteBack(held.at, held.conn.(checkedAt := start));
      }
    }

    method ActOn(held: Held, act: Act)
      requires held.at < |sockets| && sockets[held.at].conn == held.conn
      modifies this`sockets
      ensures sockets == Perform(old(sockets), held.at, act)
    {
      match act {
        case Keep =>
        case Close(reason) => RetireHeld(held, reason);
        case Live(start) => Checked(held, start);
        case Nudge => Send(held.at, PasskeysChanged);
        case LiveNudged(start) =>
          Checked(held, start);
          Send(held.at, PasskeysChanged);
      }
    }

    /** One pass over the sockets of its role, each from the copy taken before the first was acted on. */
    method RunPass(p: Pass) returns (acted: seq<Held>)
      modifies this`sockets
      ensures sockets == Swept(old(sockets), 0, p)
      ensures acted == HeldFrom(old(sockets), 0, OnBurrows(p))
    {
      hide Perform, Verdict, Swept, HeldFrom;
      acted := HeldOf(OnBurrows(p));
      var k := 0;
      ghost var done := 0;
      while k < |acted|
        invariant 0 <= k <= |acted| && 0 <= done <= |sockets| == |old(sockets)|
        invariant acted[k..] == HeldFrom(sockets, done, OnBurrows(p))
        invariant Swept(sockets, done, p) == Swept(old(sockets), 0, p)
      {
        var held := acted[k];
        NextHeld(sockets, done, OnBurrows(p));
        assert acted[k..][0] == held && acted[k..][1..] == acted[k + 1..];
        SweptSkips(sockets, done, held.at, p);
        ghost var before := sockets;
        var act := Verdict(p, held.conn, sockets[held.at].heard);
        PerformLeavesRole(sockets, held.at, act);
        SweptActs(sockets, held.at, p);
        ActOn(held, act);
        HeldSame(before, sockets, held.at + 1, OnBurrows(p));
        k := k + 1;
        done := held.at + 1;
      }
      NextHeld(sockets, done, OnBurrows(p));
      SweptSkips(sockets, done, |sockets|, p);
      SweptEnds(sockets, p);
    }

    // --- Opening ------------------------------------------------------------------------

    method ArmBy(time: int)
      modifies this`alarm
      ensures alarm == Earlier(old(alarm), time)
    {
      if alarm.None? || time < alarm.value {
        alarm := Some(time);
      }
    }

    /** Admit `name` to this object, the first upgrade naming it. */
    method Claim(name: string) returns (admitted: bool)
      modifies this`account
      ensures account == Claimed(old(State()), name).account
      ensures admitted == Admits(old(State()), name)
    {
      if name == "" {
        return false;
      }
      if account.None? {
        account := Some(name);
      }
      return account == Some(name);
    }

    /** A Burrow's upgrade, its row read answered at `answered`. */
    method OpenBurrow(name: string, burrowId: string, read: Read, answered: int) returns (reply: Reply)
      requires Enabled(State(), Event.OpenBurrow(name, burrowId, read, answered))
      modifies this
      ensures State() == Next(old(State()), Event.OpenBurrow(name, burrowId, read, answered))
      ensures reply.Accepted? <==> BurrowAdmitted(old(State()), name, burrowId, read)
      ensures Admits(old(State()), name) ==>
                && (read.Failed? ==> reply == Status(503))
                && (read.Answered? && !(burrowId in read.rows && read.rows[burrowId].userId == name) ==>
                    reply == Status(401))
                && (read.Answered? && burrowId in read.rows && read.rows[burrowId].userId == name && !read.rows[burrowId].entitled ==> reply == Status(403))
    {
      var admitted := Claim(name);
      if !admitted {
        return Status(403);
      }
      var checkedAt := clock;
      clock := answered;
      if read.Failed? {
        return Status(503);
      }
      if burrowId !in read.rows || read.rows[burrowId].userId != name {
        return Status(401);
      }
      if !read.rows[burrowId].entitled {
        return Status(403);
      }
      var existing := FindBurrow(sockets, burrowId);
      if existing.Some? {
        RetireHeld(Held(existing.value, sockets[existing.value].conn), Replaced);
      }
      sockets := sockets + [NewBurrow(burrowId, checkedAt, clock)];
      ArmBy(clock + SWEEP_MS);
      return Accepted;
    }

    /** A Client's upgrade, its session's row read answered at `answered`. */
    method OpenClient(name: string, session: string, expiresAt: int, clientId: string, read: Read, answered: int)
        returns (reply: Reply)
      requires Enabled(State(), Event.OpenClient(name, session, expiresAt, clientId, read, answered))
      modifies this
      ensures State() == Next(old(State()), Event.OpenClient(name, session, expiresAt, clientId, read, answered))
      ensures reply.Accepted? <==> ClientAdmitted(old(State()), name, session, expiresAt, read, answered)
    {
      var admitted := Claim(name);
      if !admitted {
        return Status(403);
      }
      if session == "" || expiresAt <= clock {
        return Closing(Unauthorized);
      }
      var checkedAt := clock;
      clock := answered;
      if read.Failed? {
        return Status(503);
      }
      if session !in read.rows || read.rows[session].userId != name || !read.rows[session].entitled {
        return Closing(Unauthorized);
      }
      if Clients(sockets) >= MAX_CLIENT_SOCKETS {
        var _ := RunPass(SilentClients(clock));
      }
      if Clients(sockets) >= MAX_CLIENT_SOCKETS {
        return Closing(TryAgainLater);
      }
      sockets := sockets + [NewClient(clientId, session, expiresAt, checkedAt, clock)];
      ArmBy(Sooner(expiresAt, clock + SWEEP_MS));
      return Accepted;
    }

    // --- Frames ---------------------------------------------------------------------------

    method WebSocketMessage(i: nat, m: Message)
      requires i < |sockets|
      modifies this`sockets
      ensures State() == Next(old(State()), Receive(i, m))
    {
      if !Registered(sockets[i]) {
        return;
      }
      var held := Held(i, sockets[i].conn);
      match m {
        case Oversized => RetireHeld(held, FrameTooLarge);
        case Binary =>
        case Text(asClient, asBurrow) =>
          if held.conn.Client? {
            OnClientFrame(held, asClient);
          } else {
            OnBurrowFrame(held, asBurrow);
          }
      }
    }

    method OnClientFrame(held: Held, read: ClientRead)
      requires held.at < |sockets| && Registered(sockets[held.at]) && sockets[held.at].conn == held.conn
               && held.conn.Client?
      modifies this`sockets
      ensures sockets ==
              match read
              case BadFrame(error) => PostAt(old(sockets), held.at, Refused(error))
              case ClientFrame(burrowId, step, payload) => AfterClientFrame(old(sockets), held.at, burrowId, step,
                  payload, clock)
    {
      match read {
        case BadFrame(error) => Send(held.at, Refused(error));
        case ClientFrame(burrowId, step, payload) =>
          var burrow := FindBurrow(sockets, burrowId);
          if burrow.None? {
            Send(held.at, Offline(burrowId));
            return;
          }
          var silent := WentSilent(Held(burrow.value, sockets[burrow.value].conn));
          if silent {
            Send(held.at, Offline(burrowId));
            return;
          }
          var conn := held.conn;
          if step.Init? {
            if conn.bound.Some? && conn.bound.value != burrowId {
              var previous := FindBurrow(sockets, conn.bound.value);
              if previous.Some? {
                Send(previous.value, ClientGone(conn.clientId));
              }
            }
            conn := conn.(bound := Some(burrowId));
            WriteBack(held.at, conn);
            sockets := sockets[held.at := sockets[held.at].(log := sockets[held.at].log + [InitRouted(burrowId)])];
          } else if conn.bound != Some(burrowId) {
            return;
          }
          Send(burrow.value, ToBurrow(conn.clientId, step, payload));
      }
    }

    method OnBurrowFrame(held: Held, read: BurrowRead)
      requires held.at < |sockets| && sockets[held.at].conn == held.conn && held.conn.Burrow?
      modifies this`sockets
      ensures sockets ==
              match read
              case NoFrame => old(sockets)
              case BurrowFrame(clientId, payload) => AfterBurrowFrame(old(sockets), held.at, clientId, payload)
    {
      if read.NoFrame? {
        return;
      }
      var client := FindClient(sockets, read.clientId);
      if client.None? || sockets[client.value].conn.bound != Some(held.conn.burrowId) {
        return;
      }
      Send(client.value, FromBurrow(held.conn.burrowId, read.payload));
    }

    /** A peer's close or loss, some time before its handler runs: the runtime reads the socket OPEN no longer. */
    method PeerLeaves(i: nat)
      requires Enabled(State(), LeaveOpen(i))
      modifies this`sockets
      ensures State() == Next(old(State()), LeaveOpen(i))
    {
      sockets := sockets[i := sockets[i].(open := false)];
    }

    method WebSocketClose(i: nat)
      requires Enabled(State(), Closed(i))
      modifies this`sockets
      ensures State() == Next(old(State()), Closed(i))
    {
      if !sockets[i].conn.retired {
        Teardown(Held(i, sockets[i].conn));
      }
    }

    // --- RPC --------------------------------------------------------------------------------

    method CloseBurrow(name: string, burrowId: string) returns (held: bool)
      modifies this`sockets
      ensures State() == Next(old(State()), Event.CloseBurrow(name, burrowId))
      ensures held <==> Serves(old(State()), name) && exists j ::
              0 <= j < |old(sockets)| && HoldsBurrow(old(sockets)[j], burrowId)
    {
      if account != Some(name) {
        return false;
      }
      var burrow := FindBurrow(sockets, burrowId);
      if burrow.None? {
        return false;
      }
      RetireHeld(Held(burrow.value, sockets[burrow.value].conn), Revoked);
      return true;
    }

    /** The Clients of ended sessions closed; how many there were. */
    method CloseSessions(name: string, ended: set<string>) returns (closed: nat)
      modifies this`sockets
      ensures State() == Next(old(State()), Event.CloseSessions(name, ended))
      ensures account != Some(name) ==> closed == 0
      ensures account == Some(name) ==>
                closed == |set j | 0 <= j < |old(sockets)| && old(sockets)[j].open && !old(sockets)[j].conn.retired
                                   && old(sockets)[j].conn.Client? && old(sockets)[j].conn.session in ended|
    {
      if account != Some(name) {
        return 0;
      }
      ghost var before := sockets;
      var held := set j | 0 <= j < |sockets| && sockets[j].open && !sockets[j].conn.retired && sockets[j].conn.Client?
                          && sockets[j].conn.session in ended;
      var _ := RunPass(OfSessions(ended));
      assert held == set j | 0 <= j < |before| && before[j].open && !before[j].conn.retired
                             && before[j].conn.Client? && before[j].conn.session in ended;
      return |held|;
    }

    method NudgeBurrows(name: string) returns (told: nat)
      modifies this`sockets
      ensures State() == Next(old(State()), Event.NudgeBurrows(name))
      ensures told == if Serves(old(State()), name) then |HeldFrom(old(sockets), 0, true)| else 0
    {
      if account != Some(name) {
        return 0;
      }
      var burrows := RunPass(AllBurrows);
      return |burrows|;
    }

    /** The Burrows that hold a live socket, each gone silent retired on the way. */
    method OnlineBurrows(name: string) returns (online: seq<string>)
      modifies this`sockets
      ensures State() == Next(old(State()), Event.OnlineBurrows(name))
      ensures Serves(old(State()), name) ==> online == HeldBurrowIds(sockets)
    {
      if account != Some(name) {
        return [];
      }
      var _ := RunPass(SilentBurrows(clock));
      online := BurrowIds();
    }

    method BurrowIds() returns (ids: seq<string>)
      ensures ids == HeldBurrowIds(sockets)
    {
      ids := [];
      var i := 0;
      while i < |sockets|
        invariant 0 <= i <= |sockets|
        invariant ids == HeldBurrowIds(sockets[..i])
      {
        assert sockets[..i + 1][..i] == sockets[..i];
        if Registered(sockets[i]) && sockets[i].conn.Burrow? {
          ids := ids + [sockets[i].conn.burrowId];
        }
        i := i + 1;
      }
      assert sockets[..i] == sockets;
    }

    // --- The alarm ----------------------------------------------------------------------------

    /** The alarm up to its reads: expired Clients close, then both sweeps ask about what is held. */
    method AlarmBegins()
      requires Enabled(State(), AlarmBegin)
      modifies this
      ensures State() == Next(old(State()), AlarmBegin)
    {
      alarm := None;
      var _ := RunPass(Expired(clock));
      var ids := BurrowIds();
      var sessions := HeldSessions(sockets);
      sweep := Some(Sweep(clock, ids, sessions,
                          if ids == [] then Some(true) else None,
                          if sessions == {} then Some(true) else None));
    }

    method BurrowsAnswered(read: Read)
      requires Enabled(State(), BurrowsRead(read))
      modifies this
      ensures State() == Next(old(State()), BurrowsRead(read))
    {
      var sw := sweep.value;
      match read {
        case Failed =>
          var _ := RunPass(Unchecked(true, sw.start));
        case Answered(rows) =>
          var k := 0;
          while k < |sw.burrowIds|
            invariant 0 <= k <= |sw.burrowIds|
            invariant alarm == old(alarm) && account == old(account) && clock == old(clock) && sweep == old(sweep)
            invariant SweptBurrows(sockets, sw.burrowIds[k..], rows, account, sw.start)
                      == SweptBurrows(old(sockets), sw.burrowIds, rows, account, sw.start)
          {
            var burrowId := sw.burrowIds[k];
            assert sw.burrowIds[k..][0] == burrowId && sw.burrowIds[k..][1..] == sw.burrowIds[k + 1..];
            var burrow := FindBurrow(sockets, burrowId);
            if burrow.Some? {
              ActOn(Held(burrow.value, sockets[burrow.value].conn), BurrowAct(rows, burrowId, account, sw.start));
            }
            k := k + 1;
          }
      }
      sweep := Some(sw.(burrowsRead := Some(read.Answered?)));
    }

    method ClientsAnswered(read: Read)
      requires Enabled(State(), ClientsRead(read))
      modifies this
      ensures State() == Next(old(State()), ClientsRead(read))
    {
      var sw := sweep.value;
      match read {
        case Failed =>
          var _ := RunPass(Unchecked(false, sw.start));
        case Answered(rows) =>
          var _ := RunPass(SessionsRead(sw.start, sw.sessions, LiveSessions(rows, sw.sessions, account)));
      }
      sweep := Some(sw.(clientsRead := Some(read.Answered?)));
    }

    /** The alarm past its reads: set for the next expiry, sweep or retry, or cleared while nothing is held. */
    method AlarmEnds()
      requires Enabled(State(), AlarmEnd)
      modifies this
      ensures State() == Next(old(State()), AlarmEnd)
    {
      hide HeldFrom;
      var sw := sweep.value;
      var due := sw.start + if sw.burrowsRead.value && sw.clientsRead.value then SWEEP_MS else RETRY_MS;
      var burrows := HeldOf(true);
      var clients := HeldOf(false);
      NextHeld(sockets, 0, true);
      NextHeld(sockets, 0, false);
      sweep := None;
      if clients == [] && burrows == [] {
        alarm := None;
        return;
      }
      assert HoldsAny(sockets);
      var i := 0;
      while i < |sockets|
        invariant 0 <= i <= |sockets|
        invariant due == EarliestExpiry(sockets[..i], sw.start + if sw.burrowsRead.value && sw.clientsRead.value
                  then SWEEP_MS else RETRY_MS)
      {
        assert sockets[..i + 1][..i] == sockets[..i];
        if Registered(sockets[i]) && sockets[i].conn.Client? {
          due := Sooner(due, sockets[i].conn.expiresAt);
        }
        i := i + 1;
      }
      assert sockets[..i] == sockets;
      alarm := Some(due);
    }
  }
}
