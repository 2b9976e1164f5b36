/**
 * One account's relay sockets as a value: what `RelayRoom` keeps in its sockets' attachments, its
 * alarm and its one stored key, and the state each event leaves. `relay_room.dfy` holds the object
 * itself; `relay_conversations.dfy` and `relay_alarm.dfy` prove what its runs keep.
 *
 * A socket is named by its place in `sockets`, the order it was accepted in, and is never dropped:
 * a closed one only stops being open.
 */
module RelayModel {
  import opened Wrappers

  const SWEEP_MS: int := 3_600_000
  const RETRY_MS: int := 60_000
  const GRACE_MS: int := 600_000
  const READ_TIMEOUT_MS: int := 5_000
  const IDLE_TIMEOUT_MS: int := 90_000
  const MAX_CLIENT_SOCKETS: nat := 64

  /** A socket's attachment. */
  datatype Conn =
    | Burrow(burrowId: string, openedAt: int, checkedAt: int, retired: bool)
    | Client(clientId: string, session: string, expiresAt: int, bound: Option<string>,
             openedAt: int, checkedAt: int, retired: bool)

  datatype Step = Init | Later(kind: string)

  /**
   * What a socket's peer has seen, in order: every frame sent to it, and on a Client's socket each
   * `init` of its own that was routed.
   */
  datatype Entry =
    | ToBurrow(clientId: string, step: Step, payload: string)
    | ClientGone(clientId: string)
    | PasskeysChanged
    | FromBurrow(burrowId: string, payload: string)
    | BurrowGone
    | Offline(burrowId: string)
    | Refused(error: string)
    | InitRouted(burrowId: string)

  datatype CloseReason =
    | Replaced | Revoked | NotEntitled | FrameTooLarge | GoneSilent | TryAgainLater | Unauthorized

  /**
   * `open` is whether the runtime still reads it OPEN; `heard` its last auto-answered ping;
   * `closing` why the room closed it, none while it has not.
   */
  datatype Socket = Socket(conn: Conn, open: bool, heard: Option<int>, log: seq<Entry>, closing: Option<CloseReason>)

  predicate Registered(s: Socket) {
    s.open && !s.conn.retired
  }

  predicate HoldsBurrow(s: Socket, burrowId: string) {
    Registered(s) && s.conn.Burrow? && s.conn.burrowId == burrowId
  }

  predicate HoldsClient(s: Socket, clientId: string) {
    Registered(s) && s.conn.Client? && s.conn.clientId == clientId
  }

  predicate BoundTo(s: Socket, burrowId: string) {
    s.conn.Client? && s.conn.bound == Some(burrowId)
  }

  /** The registered socket of `burrowId`, the first accepted if there were several. */
  function FindBurrow(ss: seq<Socket>, burrowId: string): (r: Option<nat>)
    ensures r.Some? ==> r.value < |ss| && HoldsBurrow(ss[r.value], burrowId)
    ensures r.None? ==> forall j :: 0 <= j < |ss| ==> !HoldsBurrow(ss[j], burrowId)
  {
    if ss == [] then None
    else
      var before := FindBurrow(ss[..|ss| - 1], burrowId);
      if before.Some? then before
      else if HoldsBurrow(ss[|ss| - 1], burrowId) then Some(|ss| - 1)
      else None
  }

  function FindClient(ss: seq<Socket>, clientId: string): (r: Option<nat>)
    ensures r.Some? ==> r.value < |ss| && HoldsClient(ss[r.value], clientId)
    ensures r.None? ==> forall j :: 0 <= j < |ss| ==> !HoldsClient(ss[j], clientId)
  {
    if ss == [] then None
    else
      var before := FindClient(ss[..|ss| - 1], clientId);
      if before.Some? then before
      else if HoldsClient(ss[|ss| - 1], clientId) then Some(|ss| - 1)
      else None
  }

  function Clients(ss: seq<Socket>): nat {
    if ss == [] then 0
    else Clients(ss[..|ss| - 1]) + if Registered(ss[|ss| - 1]) && ss[|ss| - 1].conn.Client? then 1 else 0
  }

  /** Whether the last it was heard from is over the idle timeout ago. */
  predicate Silent(s: Socket, now: int) {
    SilentConn(s.conn, s.heard, now)
  }

  predicate SilentConn(conn: Conn, heard: Option<int>, now: int) {
    now - (if heard.Some? then heard.value else conn.openedAt) > IDLE_TIMEOUT_MS
  }

  // --- What the room does to a socket ---------------------------------------------

  function Post(s: Socket, e: Entry): Socket {
    if s.open then s.(log := s.log + [e]) else s
  }

  function PostAt(ss: seq<Socket>, i: nat, e: Entry): seq<Socket>
    requires i < |ss|
  {
    ss[i := Post(ss[i], e)]
  }

  /** A Client as it stands once the Burrow `burrowId` it may be bound to is gone. */
  function Unbound(s: Socket, burrowId: string): Socket {
    if Registered(s) && BoundTo(s, burrowId)
    then s.(conn := s.conn.(bound := None), log := s.log + [BurrowGone])
    else s
  }

  function UnbindAll(ss: seq<Socket>, burrowId: string): seq<Socket> {
    seq(|ss|, j requires 0 <= j < |ss| => Unbound(ss[j], burrowId))
  }

  /** `burrowId`'s socket, when it has one, told that `clientId` is gone. */
  function TellGone(ss: seq<Socket>, burrowId: string, clientId: string): seq<Socket> {
    var b := FindBurrow(ss, burrowId);
    if b.Some? then PostAt(ss, b.value, ClientGone(clientId)) else ss
  }

  function MarkRetired(ss: seq<Socket>, i: nat): seq<Socket>
    requires i < |ss|
  {
    ss[i := ss[i].(conn := ss[i].conn.(retired := true))]
  }

  /** The teardown of `ss[i]`, marked retired first. */
  function Unregister(ss: seq<Socket>, i: nat): seq<Socket>
    requires i < |ss|
  {
    var marked := MarkRetired(ss, i);
    match ss[i].conn
    case Burrow(burrowId, _, _, _) => UnbindAll(marked, burrowId)
    case Client(clientId, _, _, bound, _, _, _) =>
      if bound.Some? then TellGone(marked, bound.value, clientId) else marked
  }

  function Retire(ss: seq<Socket>, i: nat, reason: CloseReason): seq<Socket>
    requires i < |ss|
  {
    var gone := Unregister(ss, i);
    gone[i := gone[i].(open := false, closing := Some(reason))]
  }

  function Recheck(ss: seq<Socket>, i: nat, start: int): seq<Socket>
    requires i < |ss|
  {
    if ss[i].conn.checkedAt >= start then ss
    else ss[i := ss[i].(conn := ss[i].conn.(checkedAt := start))]
  }

  // --- Passes over every held socket ----------------------------------------------

  /** What a pass makes of one held socket. */
  datatype Act = Keep | Close(reason: CloseReason) | Live(start: int) | Nudge | LiveNudged(start: int)

  function Perform(ss: seq<Socket>, i: nat, act: Act): seq<Socket>
    requires i < |ss|
  {
    match act
    case Keep => ss
    case Close(reason) => Retire(ss, i, reason)
    case Live(start) => Recheck(ss, i, start)
    case Nudge => PostAt(ss, i, PasskeysChanged)
    case LiveNudged(start) => PostAt(Recheck(ss, i, start), i, PasskeysChanged)
  }

  /** Which pass: over which role, deciding by what. */
  datatype Pass =
    | Expired(now: int)
    | OfSessions(ended: set<string>)
    | SilentClients(now: int)
    | SilentBurrows(now: int)
    | AllBurrows
    | Unchecked(burrows: bool, start: int)
    | SessionsRead(start: int, asked: set<string>, live: set<string>)

  function Verdict(p: Pass, conn: Conn, heard: Option<int>): Act {
    match p
    case Expired(now) => if conn.Client? && conn.expiresAt <= now then Close(Unauthorized) else Keep
    case OfSessions(ended) => if conn.Client? && conn.session in ended then Close(Unauthorized) else Keep
    case SilentClients(now) => if conn.Client? && SilentConn(conn, heard, now) then Close(GoneSilent) else Keep
    case SilentBurrows(now) => if conn.Burrow? && SilentConn(conn, heard, now) then Close(GoneSilent) else Keep
    case AllBurrows => if conn.Burrow? then Nudge else Keep
    case Unchecked(burrows, start) =>
      if conn.Burrow? == burrows && start - conn.checkedAt >= SWEEP_MS + GRACE_MS then Close(TryAgainLater) else Keep
    case SessionsRead(start, asked, live) =>
      if !conn.Client? || conn.session !in asked then Keep
      else if conn.session in live then Live(start)
      else Close(Unauthorized)
  }

  /** The pass `p` over the sockets registered as it reaches them, from `ss[i]` on. */
  function Swept(ss: seq<Socket>, i: nat, p: Pass): (r: seq<Socket>)
    requires i <= |ss|
    ensures |r| == |ss|
    decreases |ss| - i
  {
    if i == |ss| then ss
    else if !Registered(ss[i]) then Swept(ss, i + 1, p)
    else Swept(Perform(ss, i, Verdict(p, ss[i].conn, ss[i].heard)), i + 1, p)
  }

  /** A row the database holds: whose it is, and whether that account is entitled. */
  datatype Row = Row(userId: string, entitled: bool)
  /** What a read of rows answered, by id; failed or timed out otherwise. */
  datatype Read = Failed | Answered(rows: map<string, Row>)

  predicate IsLive(rows: map<string, Row>, id: string, account: Option<string>) {
    id in rows && Some(rows[id].userId) == account && rows[id].entitled
  }

  function BurrowAct(rows: map<string, Row>, id: string, account: Option<string>, start: int): Act {
    if id in rows && Some(rows[id].userId) == account
    then if rows[id].entitled then LiveNudged(start) else Close(NotEntitled)
    else Close(Revoked)
  }

  /** The sweep of the Burrows asked about, each judged on the socket that holds its id now. */
  function SweptBurrows(ss: seq<Socket>, ids: seq<string>, rows: map<string, Row>, account: Option<string>,
      start: int): (r: seq<Socket>)
    ensures |r| == |ss|
    decreases |ids|
  {
    if ids == [] then ss
    else
      var held := FindBurrow(ss, ids[0]);
      var next := if held.Some? then Perform(ss, held.value, BurrowAct(rows, ids[0], account, start)) else ss;
      SweptBurrows(next, ids[1..], rows, account, start)
  }

  // --- The room -----------------------------------------------------------------

  /** A running alarm, between its reads: what each asked about, and how each ended. */
  datatype Sweep = Sweep(start: int, burrowIds: seq<string>, sessions: set<string>,
                         burrowsRead: Option<bool>, clientsRead: Option<bool>)

  datatype Room = Room(sockets: seq<Socket>, alarm: Option<int>, account: Option<string>,
                       clock: int, sweep: Option<Sweep>)

  const EMPTY: Room := Room([], None, None, 0, None)

  /** What the frame layer reads of a text, as either role. */
  datatype ClientRead = BadFrame(error: string) | ClientFrame(burrowId: string, step: Step, payload: string)
  datatype BurrowRead = NoFrame | BurrowFrame(clientId: string, payload: string)
  datatype Message = Oversized | Binary | Text(asClient: ClientRead, asBurrow: BurrowRead)

  /**
   * One turn of the object. `LeaveOpen` is the runtime's: a peer's close or loss, some time before
   * its close handler `Closed` runs; `Disconnect` is both as one step. `at` is when an upgrade's
   * row read was answered.
   */
  datatype Event =
    | Tick(at: int)
    | Ping(i: nat)
    | LeaveOpen(i: nat)
    | Closed(i: nat)
    | Disconnect(i: nat)
    | OpenBurrow(account: string, burrowId: string, read: Read, at: int)
    | OpenClient(account: string, session: string, expiresAt: int, clientId: string, read: Read, at: int)
    | Receive(i: nat, message: Message)
    | CloseBurrow(account: string, burrowId: string)
    | CloseSessions(account: string, ended: set<string>)
    | NudgeBurrows(account: string)
    | OnlineBurrows(account: string)
    | AlarmBegin
    | BurrowsRead(read: Read)
    | ClientsRead(read: Read)
    | AlarmEnd

  function Earlier(alarm: Option<int>, time: int): Option<int> {
    if alarm.None? || time < alarm.value then Some(time) else alarm
  }

  function Claimed(r: Room, account: string): Room {
    if account != "" && r.account.None? then r.(account := Some(account)) else r
  }

  predicate Serves(r: Room, account: string) {
    r.account == Some(account)
  }

  /** Whether an upgrade naming `account` is admitted to this object. */
  predicate Admits(r: Room, account: string) {
    account != "" && Serves(Claimed(r, account), account)
  }

  function NewBurrow(burrowId: string, checkedAt: int, openedAt: int): Socket {
    Socket(Burrow(burrowId, openedAt, checkedAt, false), true, None, [], None)
  }

  function NewClient(clientId: string, session: string, expiresAt: int, checkedAt: int, openedAt: int): Socket {
    Socket(Client(clientId, session, expiresAt, None, openedAt, checkedAt, false), true, None, [], None)
  }

  /** The sockets once `burrowId`'s present one, if any, is displaced. */
  function Displaced(ss: seq<Socket>, burrowId: string): seq<Socket> {
    var existing := FindBurrow(ss, burrowId);
    if existing.Some? then Retire(ss, existing.value, Replaced) else ss
  }

  /** Whether an upgrade's read let this Burrow in. */
  predicate BurrowAdmitted(r: Room, account: string, burrowId: string, read: Read) {
    Admits(r, account) && read.Answered? && IsLive(read.rows, burrowId, Some(account))
  }

  function AfterOpenBurrow(r: Room, account: string, burrowId: string, read: Read, at: int): Room {
    if !Admits(r, account) then Claimed(r, account)
    else
      var read1 := Claimed(r, account).(clock := at);
      if !BurrowAdmitted(r, account, burrowId, read) then read1
      else read1.(sockets := Displaced(r.sockets, burrowId) + [NewBurrow(burrowId, r.clock, at)],
                  alarm := Earlier(r.alarm, at + SWEEP_MS))
  }

  /** The sockets a Client upgrade finds: at the cap, those gone silent are retired first. */
  function MadeRoom(ss: seq<Socket>, now: int): seq<Socket> {
    if Clients(ss) >= MAX_CLIENT_SOCKETS then Swept(ss, 0, SilentClients(now)) else ss
  }

  function Sooner(a: int, b: int): int {
    if a <= b then a else b
  }

  predicate ClientAdmitted(r: Room, account: string, session: string, expiresAt: int, read: Read, at: int) {
    && Admits(r, account) && session != "" && expiresAt > r.clock
    && read.Answered? && IsLive(read.rows, session, Some(account))
    && Clients(MadeRoom(r.sockets, at)) < MAX_CLIENT_SOCKETS
  }

  function AfterOpenClient(r: Room, account: string, session: string, expiresAt: int, clientId: string, read: Read,
      at: int): Room {
    if !Admits(r, account) || session == "" || expiresAt <= r.clock then Claimed(r, account)
    else
      var read1 := Claimed(r, account).(clock := at);
      if read.Failed? || !IsLive(read.rows, session, Some(account)) then read1
      else
        var room := MadeRoom(r.sockets, at);
        if Clients(room) >= MAX_CLIENT_SOCKETS then read1.(sockets := room)
        else read1.(sockets := room + [NewClient(clientId, session, expiresAt, r.clock, at)],
                    alarm := Earlier(r.alarm, Sooner(expiresAt, at + SWEEP_MS)))
  }

  /** A Client's `init` routed to the Burrow at `b`: the one it leaves is told first. */
  function Bind(ss: seq<Socket>, c: nat, b: nat, payload: string): seq<Socket>
    requires c < |ss| && b < |ss| && ss[c].conn.Client? && ss[b].conn.Burrow?
  {
    var me := ss[c].conn;
    var to := ss[b].conn.burrowId;
    var told := if me.bound.Some? && me.bound.value != to then TellGone(ss, me.bound.value, me.clientId) else ss;
    var bound := told[c := told[c].(conn := me.(bound := Some(to)), log := told[c].log + [InitRouted(to)])];
    PostAt(bound, b, ToBurrow(me.clientId, Init, payload))
  }

  function AfterClientFrame(ss: seq<Socket>, c: nat, burrowId: string, step: Step, payload: string,
      now: int): seq<Socket>
    requires c < |ss| && ss[c].conn.Client?
  {
    var b := FindBurrow(ss, burrowId);
    if b.None? then PostAt(ss, c, Offline(burrowId))
    else if Silent(ss[b.value], now) then PostAt(Retire(ss, b.value, GoneSilent), c, Offline(burrowId))
    else if step.Init? then Bind(ss, c, b.value, payload)
    else if !BoundTo(ss[c], burrowId) then ss
    else PostAt(ss, b.value, ToBurrow(ss[c].conn.clientId, step, payload))
  }

  function AfterBurrowFrame(ss: seq<Socket>, b: nat, clientId: string, payload: string): seq<Socket>
    requires b < |ss| && ss[b].conn.Burrow?
  {
    var c := FindClient(ss, clientId);
    if c.None? || !BoundTo(ss[c.value], ss[b].conn.burrowId) then ss
    else PostAt(ss, c.value, FromBurrow(ss[b].conn.burrowId, payload))
  }

  function AfterReceive(ss: seq<Socket>, i: nat, m: Message, now: int): seq<Socket>
    requires i < |ss|
  {
    if !Registered(ss[i]) then ss
    else match m
      case Oversized => Retire(ss, i, FrameTooLarge)
      case Binary => ss
      case Text(asClient, asBurrow) =>
        if ss[i].conn.Client? then
          match asClient
          case BadFrame(error) => PostAt(ss, i, Refused(error))
          case ClientFrame(burrowId, step, payload) => AfterClientFrame(ss, i, burrowId, step, payload, now)
        else
          match asBurrow
          case NoFrame => ss
          case BurrowFrame(clientId, payload) => AfterBurrowFrame(ss, i, clientId, payload)
  }

  function HeldBurrowIds(ss: seq<Socket>): seq<string> {
    if ss == [] then []
    else
      var s := ss[|ss| - 1];
      HeldBurrowIds(ss[..|ss| - 1]) + if Registered(s) && s.conn.Burrow? then [s.conn.burrowId] else []
  }

  function HeldSessions(ss: seq<Socket>): set<string> {
    set i | 0 <= i < |ss| && Registered(ss[i]) && ss[i].conn.Client? :: ss[i].conn.session
  }

  function AfterAlarmBegin(r: Room): Room {
    var ss := Swept(r.sockets, 0, Expired(r.clock));
    var ids := HeldBurrowIds(ss);
    var sessions := HeldSessions(ss);
    r.(sockets := ss, alarm := None,
       sweep := Some(Sweep(r.clock, ids, sessions,
                           if ids == [] then Some(true) else None,
                           if sessions == {} then Some(true) else None)))
  }

  function AfterBurrowsRead(r: Room, read: Read): Room
    requires r.sweep.Some?
  {
    var sw := r.sweep.value;
    match read
    case Failed =>
      r.(sockets := Swept(r.sockets, 0, Unchecked(true, sw.start)), sweep := Some(sw.(burrowsRead := Some(false))))
    case Answered(rows) =>
      r.(sockets := SweptBurrows(r.sockets, sw.burrowIds, rows, r.account, sw.start),
         sweep := Some(sw.(burrowsRead := Some(true))))
  }

  function LiveSessions(rows: map<string, Row>, asked: set<string>, account: Option<string>): set<string> {
    set session | session in asked && IsLive(rows, session, account)
  }

  function AfterClientsRead(r: Room, read: Read): Room
    requires r.sweep.Some?
  {
    var sw := r.sweep.value;
    match read
    case Failed =>
      r.(sockets := Swept(r.sockets, 0, Unchecked(false, sw.start)), sweep := Some(sw.(clientsRead := Some(false))))
    case Answered(rows) =>
      r.(sockets := Swept(r.sockets, 0,
          SessionsRead(sw.start, sw.sessions, LiveSessions(rows, sw.sessions, r.account))),
         sweep := Some(sw.(clientsRead := Some(true))))
  }

  /** The earliest of `time` and every registered Client's expiry. */
  function EarliestExpiry(ss: seq<Socket>, time: int): int {
    if ss == [] then time
    else
      var s := ss[|ss| - 1];
      var rest := EarliestExpiry(ss[..|ss| - 1], time);
      if Registered(s) && s.conn.Client? then Sooner(rest, s.conn.expiresAt) else rest
  }

  predicate HoldsAny(ss: seq<Socket>) {
    exists i :: 0 <= i < |ss| && Registered(ss[i])
  }

  function AfterAlarmEnd(r: Room): Room
    requires r.sweep.Some? && r.sweep.value.burrowsRead.Some? && r.sweep.value.clientsRead.Some?
  {
    var sw := r.sweep.value;
    var due := sw.start + if sw.burrowsRead.value && sw.clientsRead.value then SWEEP_MS else RETRY_MS;
    r.(sweep := None, alarm := if HoldsAny(r.sockets) then Some(EarliestExpiry(r.sockets, due)) else None)
  }

  function AfterClosed(ss: seq<Socket>, i: nat): seq<Socket>
    requires i < |ss|
  {
    if ss[i].conn.retired then ss else Unregister(ss, i)
  }

  function AfterLeaving(ss: seq<Socket>, i: nat): seq<Socket>
    requires i < |ss|
  {
    ss[i := ss[i].(open := false)]
  }

  /**
   * What the runtime delivers, and when: a socket the object accepted, one alarm at a time and only a
   * set one, not before its time, a sweep's answer once, a fresh `clientId`, and a row read that has
   * failed if it is not answered in time.
   */
  predicate Enabled(r: Room, e: Event) {
    match e
    case Tick(at) => r.clock <= at
    case Ping(i) => i < |r.sockets| && r.sockets[i].open
    case LeaveOpen(i) => i < |r.sockets| && r.sockets[i].open
    case Closed(i) => i < |r.sockets| && !r.sockets[i].open
    case Disconnect(i) => i < |r.sockets| && r.sockets[i].open
    case OpenBurrow(_, _, read, at) => r.clock <= at && (read.Answered? ==> at <= r.clock + READ_TIMEOUT_MS)
    case OpenClient(_, _, _, clientId, read, at) =>
      && r.clock <= at && (read.Answered? ==> at <= r.clock + READ_TIMEOUT_MS)
      && forall i :: 0 <= i < |r.sockets| && r.sockets[i].conn.Client? ==> r.sockets[i].conn.clientId != clientId
    case Receive(i, _) => i < |r.sockets|
    case CloseBurrow(_, _) => true
    case CloseSessions(_, _) => true
    case NudgeBurrows(_) => true
    case OnlineBurrows(_) => true
    case AlarmBegin => r.sweep.None? && r.alarm.Some? && r.alarm.value <= r.clock
    case BurrowsRead(_) => r.sweep.Some? && r.sweep.value.burrowsRead.None?
    case ClientsRead(_) => r.sweep.Some? && r.sweep.value.clientsRead.None?
    case AlarmEnd => r.sweep.Some? && r.sweep.value.burrowsRead.Some? && r.sweep.value.clientsRead.Some?
  }

  function Next(r: Room, e: Event): Room
    requires Enabled(r, e)
  {
    match e
    case Tick(at) => r.(clock := at)
    case Ping(i) => r.(sockets := r.sockets[i := r.sockets[i].(heard := Some(r.clock))])
    case LeaveOpen(i) => r.(sockets := AfterLeaving(r.sockets, i))
    case Closed(i) => r.(sockets := AfterClosed(r.sockets, i))
    case Disconnect(i) => r.(sockets := AfterClosed(AfterLeaving(r.sockets, i), i))
    case OpenBurrow(account, burrowId, read, at) => AfterOpenBurrow(r, account, burrowId, read, at)
    case OpenClient(account, session, expiresAt, clientId, read, at) =>
      AfterOpenClient(r, account, session, expiresAt, clientId, read, at)
    case Receive(i, m) => r.(sockets := AfterReceive(r.sockets, i, m, r.clock))
    case CloseBurrow(account, burrowId) =>
      var held := FindBurrow(r.sockets, burrowId);
      if Serves(r, account) && held.Some? then r.(sockets := Retire(r.sockets, held.value, Revoked)) else r
    case CloseSessions(account, ended) =>
      if Serves(r, account) then r.(sockets := Swept(r.sockets, 0, OfSessions(ended))) else r
    case NudgeBurrows(account) =>
      if Serves(r, account) then r.(sockets := Swept(r.sockets, 0, AllBurrows)) else r
    case OnlineBurrows(account) =>
      if Serves(r, account) then r.(sockets := Swept(r.sockets, 0, SilentBurrows(r.clock))) else r
    case AlarmBegin => AfterAlarmBegin(r)
    case BurrowsRead(read) => AfterBurrowsRead(r, read)
    case ClientsRead(read) => AfterClientsRead(r, read)
    case AlarmEnd => AfterAlarmEnd(r)
  }

  /** Whether `events` can happen one after another from `r`. */
  predicate CanRun(r: Room, events: seq<Event>)
    decreases |events|, 0
  {
    events == [] || (CanRun(r, events[..|events| - 1]) && Enabled(Run(r, events[..|events| - 1]), events[|events| - 1]))
  }

  function Run(r: Room, events: seq<Event>): Room
    requires CanRun(r, events)
    decreases |events|, 1
  {
    if events == [] then r else Next(Run(r, events[..|events| - 1]), events[|events| - 1])
  }
}
