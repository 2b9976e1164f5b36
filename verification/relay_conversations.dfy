/**
 * What each socket of a relay room is sent, over every run: on a Burrow's socket, about each Client,
 * blocks of "init, then any frames, then one client-gone"; on a Client's, a Burrow's frames only
 * while it is bound to that Burrow.
 */
module RelayConversations {
  import opened Wrappers
  import opened RelayModel

  // --- The two grammars -------------------------------------------------------------

  /** Where the conversation about one Client stands on a Burrow's socket. */
  datatype Talk = Quiet | Talking | Broken

  function Advance(t: Talk, e: Entry, clientId: string): Talk {
    match e
    case ToBurrow(c, step, _) =>
      if c != clientId then t else if t.Talking? || (t.Quiet? && step.Init?) then Talking else Broken
    case ClientGone(c) =>
      if c != clientId then t else if t.Talking? then Quiet else Broken
    case _ => t
  }

  function TalkOf(log: seq<Entry>, clientId: string): Talk {
    if log == [] then Quiet else Advance(TalkOf(log[..|log| - 1], clientId), log[|log| - 1], clientId)
  }

  /** Which Burrow a Client's socket is bound to, as its own record tells. */
  datatype Tie = Free | Tied(burrowId: string) | Torn

  function AdvanceTie(t: Tie, e: Entry): Tie {
    match e
    case InitRouted(b) => if t.Torn? then Torn else Tied(b)
    case BurrowGone => if t.Tied? then Free else Torn
    case FromBurrow(b, _) => if t == Tied(b) then t else Torn
    case _ => t
  }

  function TieOf(log: seq<Entry>): Tie {
    if log == [] then Free else AdvanceTie(TieOf(log[..|log| - 1]), log[|log| - 1])
  }

  lemma TalkPosted(log: seq<Entry>, e: Entry, clientId: string)
    ensures TalkOf(log + [e], clientId) == Advance(TalkOf(log, clientId), e, clientId)
  {
    assert (log + [e])[..|log|] == log;
  }

  lemma TiePosted(log: seq<Entry>, e: Entry)
    ensures TieOf(log + [e]) == AdvanceTie(TieOf(log), e)
  {
    assert (log + [e])[..|log|] == log;
  }

  // --- What every reachable room satisfies --------------------------------------------

  /** At most one registered socket per Burrow, and no two Clients with one id. */
  ghost predicate Distinct(ss: seq<Socket>) {
    && (forall i, j :: 0 <= i < |ss| && 0 <= j < |ss| && ss[j].conn.Burrow? && HoldsBurrow(ss[i], ss[j].conn.burrowId) && Registered(ss[j]) ==> i == j)
    && (forall i, j :: 0 <= i < |ss| && 0 <= j < |ss| && ss[i].conn.Client? && ss[j].conn.Client? && ss[i].conn.clientId == ss[j].conn.clientId ==> i == j)
  }

  /** A Client's record never tears, and while it is not retired tells its binding. */
  ghost predicate Faithful(s: Socket) {
    s.conn.Client? ==>
      && !TieOf(s.log).Torn?
      && (!s.conn.retired ==> TieOf(s.log) == if s.conn.bound.Some? then Tied(s.conn.bound.value) else Free)
  }

  ghost predicate Attached(s: Socket, burrowId: string) {
    s.conn.Burrow? && s.conn.burrowId == burrowId && !s.conn.retired
  }

  /** A registered Client's binding names a Burrow with a socket not retired. */
  ghost predicate Anchored(ss: seq<Socket>) {
    forall i :: 0 <= i < |ss| && Registered(ss[i]) && ss[i].conn.Client? && ss[i].conn.bound.Some? ==>
      exists j :: 0 <= j < |ss| && Attached(ss[j], ss[i].conn.bound.value)
  }

  ghost predicate Sound(ss: seq<Socket>) {
    && Distinct(ss)
    && (forall i :: 0 <= i < |ss| ==> Faithful(ss[i]))
    && Anchored(ss)
  }

  /**
   * Every conversation is in its grammar, and one with a Client still bound is under way on the
   * socket of the Burrow it is bound to.
   */
  ghost predicate Calm(ss: seq<Socket>) {
    && (forall j, k :: 0 <= j < |ss| ==> !TalkOf(ss[j].log, k).Broken?)
    && (forall i, j :: 0 <= i < |ss| && 0 <= j < |ss| && ss[i].conn.Client? && !ss[i].conn.retired && Registered(ss[j]) && ss[j].conn.Burrow? && BoundTo(ss[i], ss[j].conn.burrowId) ==>
        TalkOf(ss[j].log, ss[i].conn.clientId) == Talking)
  }

  /** Nothing is left between open and torn down, and a conversation is under way only with a Client bound. */
  ghost predicate Tight(ss: seq<Socket>) {
    && (forall i :: 0 <= i < |ss| && !ss[i].conn.retired ==> ss[i].open)
    && (forall j, k :: 0 <= j < |ss| && Registered(ss[j]) && ss[j].conn.Burrow? && TalkOf(ss[j].log, k).Talking? ==>
        exists i :: 0 <= i < |ss| && HoldsClient(ss[i], k) && BoundTo(ss[i], ss[j].conn.burrowId))
  }

  // --- Each thing the room does keeps it ------------------------------------------------

  /** `t` is the socket `s` later on: the same end, and neither reopened nor registered again. */
  predicate Carried(s: Socket, t: Socket) {
    && s.conn.Burrow? == t.conn.Burrow?
    && (s.conn.Burrow? ==> s.conn.burrowId == t.conn.burrowId)
    && (s.conn.Client? ==> s.conn.clientId == t.conn.clientId)
    && (s.conn.retired ==> t.conn.retired)
    && (t.open ==> s.open)
  }

  predicate AllCarried(ss: seq<Socket>, rs: seq<Socket>) {
    |ss| == |rs| && forall j :: 0 <= j < |ss| ==> Carried(ss[j], rs[j])
  }

  lemma DistinctKept(ss: seq<Socket>, rs: seq<Socket>)
    requires Distinct(ss) && AllCarried(ss, rs)
    ensures Distinct(rs)
  {
    forall i, j | 0 <= i < |rs| && 0 <= j < |rs| && rs[j].conn.Burrow? && HoldsBurrow(rs[i],
        rs[j].conn.burrowId) && Registered(rs[j])
      ensures i == j
    {
      assert Carried(ss[i], rs[i]) && Carried(ss[j], rs[j]);
      assert HoldsBurrow(ss[i], ss[j].conn.burrowId);
    }
    forall i, j | 0 <= i < |rs| && 0 <= j < |rs| && rs[i].conn.Client? && rs[j].conn.Client? && rs[i].conn.clientId == rs[j].conn.clientId
      ensures i == j
    {
      assert Carried(ss[i], rs[i]) && Carried(ss[j], rs[j]);
    }
  }

  lemma UnregisterBurrowSound(ss: seq<Socket>, i: nat)
    requires i < |ss| && Sound(ss) && ss[i].conn.Burrow?
    ensures Sound(Unregister(ss, i)) && AllCarried(ss, Unregister(ss, i))
  {
    var rs := Unregister(ss, i);
    assert AllCarried(ss, rs);
    DistinctKept(ss, rs);
    forall j | 0 <= j < |ss| ensures Faithful(rs[j]) {
      assert Faithful(ss[j]);
      TiePosted(ss[j].log, BurrowGone);
    }
    UnregisterBurrowAnchored(ss, i);
  }

  lemma UnregisterBurrowAnchored(ss: seq<Socket>, i: nat)
    requires i < |ss| && Anchored(ss) && ss[i].conn.Burrow?
    ensures Anchored(Unregister(ss, i))
  {
    var rs := Unregister(ss, i);
    forall c | 0 <= c < |rs| && Registered(rs[c]) && rs[c].conn.Client? && rs[c].conn.bound.Some?
      ensures exists j :: 0 <= j < |rs| && Attached(rs[j], rs[c].conn.bound.value)
    {
      assert rs[c] == ss[c];
      var j :| 0 <= j < |ss| && Attached(ss[j], ss[c].conn.bound.value);
      assert Attached(rs[j], rs[c].conn.bound.value);
    }
  }

  lemma UnregisterBurrowCalm(ss: seq<Socket>, i: nat)
    requires i < |ss| && Sound(ss) && ss[i].conn.Burrow? && Calm(ss)
    ensures Calm(Unregister(ss, i))
  {
    var rs := Unregister(ss, i);
    hide Sound, TalkOf;
    assert forall j :: 0 <= j < |ss| && j != i ==> rs[j] == Unbound(ss[j], ss[i].conn.burrowId);
    assert rs[i] == MarkRetired(ss, i)[i];
    hide Unregister;
    forall j, k | 0 <= j < |ss| ensures TalkOf(rs[j].log, k) == TalkOf(ss[j].log, k) {
      TalkPosted(ss[j].log, BurrowGone, k);
    }
  }

  lemma UnregisterClientSound(ss: seq<Socket>, i: nat)
    requires i < |ss| && Sound(ss) && ss[i].conn.Client? && !ss[i].conn.retired
    ensures Sound(Unregister(ss, i)) && AllCarried(ss, Unregister(ss, i))
  {
    var rs := Unregister(ss, i);
    DistinctKept(ss, rs);
    forall j | 0 <= j < |ss| ensures Faithful(rs[j]) {
      assert Faithful(ss[j]);
    }
    forall c | 0 <= c < |rs| && Registered(rs[c]) && rs[c].conn.Client? && rs[c].conn.bound.Some?
      ensures exists j :: 0 <= j < |rs| && Attached(rs[j], rs[c].conn.bound.value)
    {
      var j :| 0 <= j < |ss| && Attached(ss[j], ss[c].conn.bound.value);
      assert Attached(rs[j], rs[c].conn.bound.value);
    }
  }

  lemma UnregisterClientCalm(ss: seq<Socket>, i: nat)
    requires i < |ss| && Sound(ss) && ss[i].conn.Client? && !ss[i].conn.retired && Calm(ss)
    ensures Calm(Unregister(ss, i))
  {
    hide Anchored, Faithful, TalkOf;
    var rs := Unregister(ss, i);
    var k := ss[i].conn.clientId;
    forall j, m | 0 <= j < |rs| ensures !TalkOf(rs[j].log, m).Broken? {
      TalkPosted(ss[j].log, ClientGone(k), m);
    }
    forall c, j | 0 <= c < |rs| && 0 <= j < |rs| && rs[c].conn.Client? && !rs[c].conn.retired && Registered(rs[j]) && rs[j].conn.Burrow? && BoundTo(rs[c], rs[j].conn.burrowId)
      ensures TalkOf(rs[j].log, rs[c].conn.clientId) == Talking
    {
      TalkPosted(ss[j].log, ClientGone(k), ss[c].conn.clientId);
    }
  }

  // Steps that leave bindings alone.

  /** The binding and its record unmoved; `Unmoved` says so of every conversation. */
  ghost predicate Still(s: Socket, t: Socket) {
    && Carried(s, t) && s.conn.retired == t.conn.retired && TieOf(s.log) == TieOf(t.log)
    && (s.conn.Client? ==> s.conn.bound == t.conn.bound)
  }

  ghost predicate Unmoved(s: Socket, t: Socket) {
    forall k :: TalkOf(s.log, k) == TalkOf(t.log, k)
  }

  lemma StillSound(ss: seq<Socket>, rs: seq<Socket>)
    requires Sound(ss) && |ss| == |rs| && forall j :: 0 <= j < |ss| ==> Still(ss[j], rs[j])
    ensures Sound(rs) && AllCarried(ss, rs)
  {
    DistinctKept(ss, rs);
    forall j | 0 <= j < |rs| ensures Faithful(rs[j]) {
      assert Still(ss[j], rs[j]) && Faithful(ss[j]);
    }
    forall c | 0 <= c < |rs| && Registered(rs[c]) && rs[c].conn.Client? && rs[c].conn.bound.Some?
      ensures exists j :: 0 <= j < |rs| && Attached(rs[j], rs[c].conn.bound.value)
    {
      assert Still(ss[c], rs[c]);
      var j :| 0 <= j < |ss| && Attached(ss[j], ss[c].conn.bound.value);
      assert Still(ss[j], rs[j]) && Attached(rs[j], rs[c].conn.bound.value);
    }
  }

  lemma StillCalm(ss: seq<Socket>, rs: seq<Socket>)
    requires Calm(ss) && |ss| == |rs|
    requires forall j :: 0 <= j < |ss| ==> Still(ss[j], rs[j])
    requires forall j :: 0 <= j < |ss| ==> Unmoved(ss[j], rs[j])
    ensures Calm(rs)
  {
    forall j, k | 0 <= j < |rs| ensures !TalkOf(rs[j].log, k).Broken? {
      assert Unmoved(ss[j], rs[j]);
    }
    forall c, j | 0 <= c < |rs| && 0 <= j < |rs| && rs[c].conn.Client? && !rs[c].conn.retired && Registered(rs[j]) && rs[j].conn.Burrow? && BoundTo(rs[c], rs[j].conn.burrowId)
      ensures TalkOf(rs[j].log, rs[c].conn.clientId) == Talking
    {
      assert Still(ss[c], rs[c]) && Still(ss[j], rs[j]) && Unmoved(ss[j], rs[j]);
    }
  }

  lemma StillTight(ss: seq<Socket>, rs: seq<Socket>)
    requires Tight(ss) && |ss| == |rs|
    requires forall j :: 0 <= j < |ss| ==> Still(ss[j], rs[j]) && (ss[j].open == rs[j].open || rs[j].conn.retired)
    requires forall j :: 0 <= j < |ss| ==> Unmoved(ss[j], rs[j])
    ensures Tight(rs)
  {
    forall i | 0 <= i < |rs| && !rs[i].conn.retired ensures rs[i].open {
      assert Still(ss[i], rs[i]);
    }
    forall j, k | 0 <= j < |rs| && Registered(rs[j]) && rs[j].conn.Burrow? && TalkOf(rs[j].log, k).Talking?
      ensures exists i :: 0 <= i < |rs| && HoldsClient(rs[i], k) && BoundTo(rs[i], rs[j].conn.burrowId)
    {
      assert Still(ss[j], rs[j]) && Unmoved(ss[j], rs[j]);
      var i :| 0 <= i < |ss| && HoldsClient(ss[i], k) && BoundTo(ss[i], ss[j].conn.burrowId);
      assert Still(ss[i], rs[i]);
      assert HoldsClient(rs[i], k) && BoundTo(rs[i], rs[j].conn.burrowId);
    }
  }

  predicate Neutral(e: Entry) {
    e.PasskeysChanged? || e.Offline? || e.Refused?
  }

  lemma PostNeutral(ss: seq<Socket>, i: nat, e: Entry)
    requires i < |ss| && Neutral(e) && Sound(ss)
    ensures Sound(PostAt(ss, i, e)) && AllCarried(ss, PostAt(ss, i, e))
    ensures Calm(ss) ==> Calm(PostAt(ss, i, e))
    ensures Tight(ss) ==> Tight(PostAt(ss, i, e))
  {
    hide Sound, Calm, Tight, TieOf, TalkOf;
    var rs := PostAt(ss, i, e);
    TiePosted(ss[i].log, e);
    StillSound(ss, rs);
    forall k ensures TalkOf(ss[i].log, k) == TalkOf(rs[i].log, k) {
      TalkPosted(ss[i].log, e, k);
    }
    assert Unmoved(ss[i], rs[i]);
    if Calm(ss) { StillCalm(ss, rs); }
    if Tight(ss) { StillTight(ss, rs); }
  }

  /** A socket's own bookkeeping: its check, its last ping, its leaving, its close. */
  lemma Bookkept(ss: seq<Socket>, i: nat, s: Socket)
    requires i < |ss| && Sound(ss) && Still(ss[i], s) && s.log == ss[i].log
    ensures Sound(ss[i := s]) && AllCarried(ss, ss[i := s])
    ensures Calm(ss) ==> Calm(ss[i := s])
    ensures Tight(ss) && (s.open == ss[i].open || s.conn.retired) ==> Tight(ss[i := s])
  {
    var rs := ss[i := s];
    StillSound(ss, rs);
    if Calm(ss) { StillCalm(ss, rs); }
    if Tight(ss) && (s.open == ss[i].open || s.conn.retired) { StillTight(ss, rs); }
  }

  lemma UnregisterKeeps(ss: seq<Socket>, i: nat)
    requires i < |ss| && Sound(ss) && !ss[i].conn.retired
    ensures Sound(Unregister(ss, i)) && AllCarried(ss, Unregister(ss, i))
    ensures Calm(ss) ==> Calm(Unregister(ss, i))
    ensures Unregister(ss, i)[i].conn.retired
  {
    if ss[i].conn.Burrow? {
      UnregisterBurrowSound(ss, i);
      if Calm(ss) { UnregisterBurrowCalm(ss, i); }
    } else {
      UnregisterClientSound(ss, i);
      if Calm(ss) { UnregisterClientCalm(ss, i); }
    }
  }

  lemma RetireKeeps(ss: seq<Socket>, i: nat, reason: CloseReason)
    requires i < |ss| && Sound(ss) && !ss[i].conn.retired
    ensures Sound(Retire(ss, i, reason)) && AllCarried(ss, Retire(ss, i, reason))
    ensures Calm(ss) ==> Calm(Retire(ss, i, reason))
    ensures Tight(ss) ==> Tight(Retire(ss, i, reason))
  {
    var us := Unregister(ss, i);
    UnregisterKeeps(ss, i);
    Bookkept(us, i, us[i].(open := false, closing := Some(reason)));
    if Tight(ss) { UnregisterTight(ss, i); }
  }

  /** Socket `j` once `ss[i]` is torn down. */
  function TornDown(ss: seq<Socket>, i: nat, j: nat): Socket
    requires i < |ss| && j < |ss|
  {
    var conn := ss[i].conn;
    if j == i then ss[i].(conn := conn.(retired := true))
    else if conn.Burrow? then Unbound(ss[j], conn.burrowId)
    else if conn.bound.Some? && HoldsBurrow(ss[j], conn.bound.value)
        then ss[j].(log := ss[j].log + [ClientGone(conn.clientId)])
    else ss[j]
  }

  lemma UnregisterAt(ss: seq<Socket>, i: nat, j: nat)
    requires i < |ss| && j < |ss| && Distinct(ss)
    ensures |Unregister(ss, i)| == |ss| && Unregister(ss, i)[j] == TornDown(ss, i, j)
  {
    var conn := ss[i].conn;
    if conn.Client? && conn.bound.Some? {
      var marked := MarkRetired(ss, i);
      DistinctKept(ss, marked);
      TellGoneAt(marked, conn.bound.value, conn.clientId, j);
    }
  }

  /** A socket's teardown ends each conversation it was in. */
  lemma UnregisterTight(ss: seq<Socket>, i: nat)
    requires i < |ss| && Sound(ss) && !ss[i].conn.retired
    requires forall j :: 0 <= j < |ss| && j != i && !ss[j].conn.retired ==> ss[j].open
    requires ss[i].conn.Burrow? ==> forall j :: 0 <= j < |ss| && j != i ==> !HoldsBurrow(ss[j], ss[i].conn.burrowId)
    requires forall j, k :: 0 <= j < |ss| && j != i && Registered(ss[j]) && ss[j].conn.Burrow? && TalkOf(ss[j].log, k).Talking? ==>
        exists c :: 0 <= c < |ss| && BoundTo(ss[c],
            ss[j].conn.burrowId) && ss[c].conn.clientId == k && !ss[c].conn.retired
    ensures Tight(Unregister(ss, i))
  {
    var rs := Unregister(ss, i);
    hide Anchored, Faithful, TalkOf, Unregister, TornDown;
    forall j | 0 <= j < |ss| ensures |rs| == |ss| && rs[j] == TornDown(ss, i, j) {
      UnregisterAt(ss, i, j);
    }
    forall j | 0 <= j < |rs| && !rs[j].conn.retired ensures rs[j].open {
      TornDownStands(ss, i, j);
    }
    hide Distinct;
    forall j, k | 0 <= j < |rs| && Registered(rs[j]) && rs[j].conn.Burrow? && TalkOf(rs[j].log, k).Talking?
      ensures exists c :: 0 <= c < |rs| && HoldsClient(rs[c], k) && BoundTo(rs[c], rs[j].conn.burrowId)
    {
      TornDownTalk(ss, i, j, k);
      var c :| 0 <= c < |ss| && BoundTo(ss[c], ss[j].conn.burrowId) && ss[c].conn.clientId == k && !ss[c].conn.retired;
      TornDownClient(ss, i, j, c);
      assert HoldsClient(rs[c], k) && BoundTo(rs[c], rs[j].conn.burrowId);
    }
  }

  /** A socket still registered after a teardown is another, and was. */
  lemma TornDownStands(ss: seq<Socket>, i: nat, j: nat)
    requires i < |ss| && j < |ss| && !TornDown(ss, i, j).conn.retired
    ensures j != i && !ss[j].conn.retired && TornDown(ss, i, j).open == ss[j].open
    ensures TornDown(ss, i, j).conn.Burrow? ==> TornDown(ss, i, j).conn == ss[j].conn
  {
  }

  /** A conversation still under way was, and not the one a teardown of its Client ended. */
  lemma TornDownTalk(ss: seq<Socket>, i: nat, j: nat, k: string)
    requires i < |ss| && j < |ss| && Registered(TornDown(ss, i, j)) && TornDown(ss, i, j).conn.Burrow?
    requires TalkOf(TornDown(ss, i, j).log, k).Talking?
    ensures j != i && Registered(ss[j]) && ss[j].conn == TornDown(ss, i, j).conn && TalkOf(ss[j].log, k).Talking?
    ensures ss[i].conn.Client? && BoundTo(ss[i], ss[j].conn.burrowId) ==> ss[i].conn.clientId != k
  {
    TornDownStands(ss, i, j);
    if ss[i].conn.Client? {
      TalkPosted(ss[j].log, ClientGone(ss[i].conn.clientId), k);
    }
    hide TalkOf;
  }

  /** A Client bound to a Burrow still registered stays so. */
  lemma TornDownClient(ss: seq<Socket>, i: nat, j: nat, c: nat)
    requires i < |ss| && j < |ss| && c < |ss| && c != i && j != i
    requires ss[j].conn.Burrow? && Registered(ss[j]) && BoundTo(ss[c], ss[j].conn.burrowId) && !ss[c].conn.retired
             && ss[c].open
    requires ss[i].conn.Burrow? ==> !HoldsBurrow(ss[j], ss[i].conn.burrowId)
    ensures TornDown(ss, i, c) == ss[c]
  {
  }

  // Frames routed.

  /** A Client's `init`: the Burrow it leaves hears it is gone, the one it names hears from it. */
  lemma BindKeeps(ss: seq<Socket>, c: nat, b: nat, payload: string)
    requires c < |ss| && b < |ss| && Sound(ss) && Registered(ss[c]) && ss[c].conn.Client?
    requires Registered(ss[b]) && ss[b].conn.Burrow?
    ensures Sound(Bind(ss, c, b, payload)) && AllCarried(ss, Bind(ss, c, b, payload))
  {
    hide Bind, TieOf, Distinct;
    var rs := Bind(ss, c, b, payload);
    var to := ss[b].conn.burrowId;
    BindLength(ss, c, b, payload);
    forall j | 0 <= j < |ss| ensures Carried(ss[j], rs[j]) && Faithful(rs[j]) && ss[j].conn.retired == rs[j].conn.retired && (j != c ==> rs[j].conn == ss[j].conn) {
      BindAt(ss, c, b, payload, j);
      assert Faithful(ss[j]);
      TiePosted(ss[c].log, InitRouted(to));
    }
    BindAt(ss, c, b, payload, c);
    DistinctKept(ss, rs);
    forall i | 0 <= i < |rs| && Registered(rs[i]) && rs[i].conn.Client? && rs[i].conn.bound.Some?
      ensures exists j :: 0 <= j < |rs| && Attached(rs[j], rs[i].conn.bound.value)
    {
      if i == c {
        assert Attached(rs[b], to);
      } else {
        var j :| 0 <= j < |ss| && Attached(ss[j], ss[i].conn.bound.value);
        assert Attached(rs[j], rs[i].conn.bound.value);
      }
    }
  }

  lemma TellGoneAt(ss: seq<Socket>, burrowId: string, clientId: string, j: nat)
    requires j < |ss| && Distinct(ss)
    ensures |TellGone(ss, burrowId, clientId)| == |ss|
    ensures TellGone(ss, burrowId, clientId)[j] ==
            if HoldsBurrow(ss[j], burrowId) then ss[j].(log := ss[j].log + [ClientGone(clientId)]) else ss[j]
  {
    var b := FindBurrow(ss, burrowId);
    if HoldsBurrow(ss[j], burrowId) {
      assert HoldsBurrow(ss[b.value], ss[j].conn.burrowId);
    }
  }

  lemma BindLength(ss: seq<Socket>, c: nat, b: nat, payload: string)
    requires c < |ss| && b < |ss| && ss[c].conn.Client? && ss[b].conn.Burrow?
    ensures |Bind(ss, c, b, payload)| == |ss|
  {
  }

  /** What `Bind` adds to socket `j`'s record, if anything. */
  lemma BindAt(ss: seq<Socket>, c: nat, b: nat, payload: string, j: nat)
    requires c < |ss| && b < |ss| && j < |ss| && Distinct(ss) && Registered(ss[c]) && ss[c].conn.Client?
    requires Registered(ss[b]) && ss[b].conn.Burrow?
    ensures var s := Bind(ss, c, b, payload)[j];
            var me := ss[c].conn;
            var to := ss[b].conn.burrowId;
            s == if j == b then ss[b].(log := ss[b].log + [ToBurrow(me.clientId, Init, payload)])
                 else if j == c then ss[c].(conn := me.(bound := Some(to)), log := ss[c].log + [InitRouted(to)])
                 else if me.bound.Some? && HoldsBurrow(ss[j], me.bound.value)
                 then ss[j].(log := ss[j].log + [ClientGone(me.clientId)])
                 else ss[j]
  {
    var me := ss[c].conn;
    if me.bound.Some? {
      TellGoneAt(ss, me.bound.value, me.clientId, j);
      TellGoneAt(ss, me.bound.value, me.clientId, b);
      TellGoneAt(ss, me.bound.value, me.clientId, c);
    }
    if j != b && HoldsBurrow(ss[j], ss[b].conn.burrowId) {
      assert false;
    }
  }

  lemma BindTalk(ss: seq<Socket>, c: nat, b: nat, payload: string, j: nat, k: string)
    requires c < |ss| && b < |ss| && j < |ss| && Distinct(ss) && Registered(ss[c]) && ss[c].conn.Client?
    requires Registered(ss[b]) && ss[b].conn.Burrow? && Calm(ss)
    ensures var t := TalkOf(Bind(ss, c, b, payload)[j].log, k);
            var me := ss[c].conn;
            if k != me.clientId then t == TalkOf(ss[j].log, k)
            else if j == b then t == Talking
            else if me.bound.Some? && HoldsBurrow(ss[j], me.bound.value) then t == Quiet
            else t == TalkOf(ss[j].log, k)
  {
    var me := ss[c].conn;
    BindAt(ss, c, b, payload, j);
    TalkPosted(ss[j].log, ToBurrow(me.clientId, Init, payload), k);
    TalkPosted(ss[j].log, InitRouted(ss[b].conn.burrowId), k);
    TalkPosted(ss[j].log, ClientGone(me.clientId), k);
    assert !TalkOf(ss[j].log, k).Broken?;
  }

  lemma BindCalm(ss: seq<Socket>, c: nat, b: nat, payload: string)
    requires c < |ss| && b < |ss| && Sound(ss) && Registered(ss[c]) && ss[c].conn.Client?
    requires Registered(ss[b]) && ss[b].conn.Burrow? && Calm(ss)
    ensures Calm(Bind(ss, c, b, payload))
  {
    var rs := Bind(ss, c, b, payload);
    BindKeeps(ss, c, b, payload);
    forall j, k | 0 <= j < |rs| ensures !TalkOf(rs[j].log, k).Broken? {
      BindTalk(ss, c, b, payload, j, k);
    }
    forall i, j | 0 <= i < |rs| && 0 <= j < |rs| && rs[i].conn.Client? && !rs[i].conn.retired && Registered(rs[j]) && rs[j].conn.Burrow? && BoundTo(rs[i], rs[j].conn.burrowId)
      ensures TalkOf(rs[j].log, rs[i].conn.clientId) == Talking
    {
      assert Carried(ss[i], rs[i]) && Carried(ss[j], rs[j]);
      BindTalk(ss, c, b, payload, j, rs[i].conn.clientId);
    }
  }

  lemma BindWitness(ss: seq<Socket>, c: nat, b: nat, payload: string, j: nat, k: string) returns (i: nat)
    requires c < |ss| && b < |ss| && j < |ss| && Distinct(ss) && Registered(ss[c]) && ss[c].conn.Client?
    requires Registered(ss[b]) && ss[b].conn.Burrow? && Calm(ss) && Tight(ss)
    requires Registered(ss[j]) && ss[j].conn.Burrow? && TalkOf(Bind(ss, c, b, payload)[j].log, k).Talking?
    ensures i < |ss| && HoldsClient(Bind(ss, c, b, payload)[i], k)
            && BoundTo(Bind(ss, c, b, payload)[i], ss[j].conn.burrowId)
  {
    BindTalk(ss, c, b, payload, j, k);
    if j == b && k == ss[c].conn.clientId {
      i := c;
    } else {
      i :| 0 <= i < |ss| && HoldsClient(ss[i], k) && BoundTo(ss[i], ss[j].conn.burrowId);
    }
    BindAt(ss, c, b, payload, i);
  }

  lemma BindTight(ss: seq<Socket>, c: nat, b: nat, payload: string)
    requires c < |ss| && b < |ss| && Distinct(ss) && Registered(ss[c]) && ss[c].conn.Client?
    requires Registered(ss[b]) && ss[b].conn.Burrow? && Calm(ss) && Tight(ss)
    ensures Tight(Bind(ss, c, b, payload))
  {
    var rs := Bind(ss, c, b, payload);
    forall i | 0 <= i < |rs| && !rs[i].conn.retired ensures rs[i].open {
      BindAt(ss, c, b, payload, i);
    }
    forall j, k | 0 <= j < |rs| && Registered(rs[j]) && rs[j].conn.Burrow? && TalkOf(rs[j].log, k).Talking?
      ensures exists i :: 0 <= i < |rs| && HoldsClient(rs[i], k) && BoundTo(rs[i], rs[j].conn.burrowId)
    {
      BindAt(ss, c, b, payload, j);
      var i := BindWitness(ss, c, b, payload, j, k);
    }
  }

  /** A bound Client's later frame, posted to the Burrow it is bound to. */
  lemma ForwardKeeps(ss: seq<Socket>, b: nat, clientId: string, step: Step, payload: string)
    requires b < |ss| && Sound(ss)
    ensures Sound(PostAt(ss, b, ToBurrow(clientId, step, payload)))
    ensures AllCarried(ss, PostAt(ss, b, ToBurrow(clientId, step, payload)))
  {
    TiePosted(ss[b].log, ToBurrow(clientId, step, payload));
    StillSound(ss, PostAt(ss, b, ToBurrow(clientId, step, payload)));
  }

  lemma ForwardCalm(ss: seq<Socket>, c: nat, b: nat, step: Step, payload: string)
    requires c < |ss| && b < |ss| && Calm(ss) && Registered(ss[c]) && Registered(ss[b]) && ss[b].conn.Burrow?
    requires BoundTo(ss[c], ss[b].conn.burrowId)
    ensures var rs := PostAt(ss, b, ToBurrow(ss[c].conn.clientId, step, payload));
            Calm(rs) && (Tight(ss) ==> Tight(rs))
  {
    var e := ToBurrow(ss[c].conn.clientId, step, payload);
    var rs := PostAt(ss, b, e);
    TiePosted(ss[b].log, e);
    forall k ensures TalkOf(ss[b].log, k) == TalkOf(rs[b].log, k) {
      TalkPosted(ss[b].log, e, k);
    }
    assert Unmoved(ss[b], rs[b]);
    StillCalm(ss, rs);
    if Tight(ss) { StillTight(ss, rs); }
  }

  /** A Burrow's reply, posted to a Client bound to it. */
  lemma ReplyKeeps(ss: seq<Socket>, c: nat, burrowId: string, payload: string)
    requires c < |ss| && Sound(ss) && Registered(ss[c]) && BoundTo(ss[c], burrowId)
    ensures var rs := PostAt(ss, c, FromBurrow(burrowId, payload));
            Sound(rs) && AllCarried(ss, rs) && (Calm(ss) ==> Calm(rs)) && (Tight(ss) ==> Tight(rs))
  {
    var e := FromBurrow(burrowId, payload);
    var rs := PostAt(ss, c, e);
    assert Faithful(ss[c]);
    TiePosted(ss[c].log, e);
    StillSound(ss, rs);
    forall k ensures TalkOf(ss[c].log, k) == TalkOf(rs[c].log, k) {
      TalkPosted(ss[c].log, e, k);
    }
    assert Unmoved(ss[c], rs[c]);
    if Calm(ss) { StillCalm(ss, rs); }
    if Tight(ss) { StillTight(ss, rs); }
  }

  // Whole turns.

  ghost predicate Keeps(ss: seq<Socket>, rs: seq<Socket>) {
    && Sound(rs) && AllCarried(ss, rs)
    && (Calm(ss) ==> Calm(rs))
    && (Calm(ss) && Tight(ss) ==> Tight(rs))
  }

  lemma KeepsThrough(ss: seq<Socket>, ms: seq<Socket>, rs: seq<Socket>)
    requires Keeps(ss, ms) && Keeps(ms, rs)
    ensures Keeps(ss, rs)
  {
    forall j | 0 <= j < |ss| ensures Carried(ss[j], rs[j]) {
      assert Carried(ss[j], ms[j]) && Carried(ms[j], rs[j]);
    }
  }

  lemma PerformKeeps(ss: seq<Socket>, i: nat, act: Act)
    requires i < |ss| && Sound(ss) && Registered(ss[i])
    ensures Keeps(ss, Perform(ss, i, act))
  {
    hide Sound, Calm, Tight, Retire, TieOf, TalkOf;
    match act
    case Keep =>
    case Close(reason) => RetireKeeps(ss, i, reason);
    case Live(start) => Bookkept(ss, i, Recheck(ss, i, start)[i]);
    case Nudge => PostNeutral(ss, i, PasskeysChanged);
    case LiveNudged(start) =>
      Bookkept(ss, i, Recheck(ss, i, start)[i]);
      PostNeutral(Recheck(ss, i, start), i, PasskeysChanged);
      KeepsThrough(ss, Recheck(ss, i, start), Perform(ss, i, act));
  }

  lemma SweptKeeps(ss: seq<Socket>, i: nat, p: Pass)
    requires i <= |ss| && Sound(ss)
    ensures Keeps(ss, Swept(ss, i, p))
    decreases |ss| - i
  {
    if i == |ss| {
    } else if !Registered(ss[i]) {
      SweptKeeps(ss, i + 1, p);
    } else {
      var next := Perform(ss, i, Verdict(p, ss[i].conn, ss[i].heard));
      PerformKeeps(ss, i, Verdict(p, ss[i].conn, ss[i].heard));
      SweptKeeps(next, i + 1, p);
      KeepsThrough(ss, next, Swept(ss, i, p));
    }
  }

  lemma SweptBurrowsKeeps(ss: seq<Socket>, ids: seq<string>, rows: map<string, Row>, account: Option<string>,
      start: int)
    requires Sound(ss)
    ensures Keeps(ss, SweptBurrows(ss, ids, rows, account, start))
    decreases |ids|
  {
    if ids != [] {
      var held := FindBurrow(ss, ids[0]);
      if held.Some? {
        var next := Perform(ss, held.value, BurrowAct(rows, ids[0], account, start));
        PerformKeeps(ss, held.value, BurrowAct(rows, ids[0], account, start));
        SweptBurrowsKeeps(next, ids[1..], rows, account, start);
        KeepsThrough(ss, next, SweptBurrows(ss, ids, rows, account, start));
      } else {
        SweptBurrowsKeeps(ss, ids[1..], rows, account, start);
      }
    }
  }

  lemma ReceiveKeeps(ss: seq<Socket>, i: nat, m: Message, now: int)
    requires i < |ss| && Sound(ss)
    ensures Keeps(ss, AfterReceive(ss, i, m, now))
  {
    if Registered(ss[i]) {
      match m
      case Oversized => RetireKeeps(ss, i, FrameTooLarge);
      case Binary =>
      case Text(asClient, asBurrow) =>
        if ss[i].conn.Client? {
          match asClient
          case BadFrame(error) => PostNeutral(ss, i, Refused(error));
          case ClientFrame(burrowId, step, payload) => ClientFrameKeeps(ss, i, burrowId, step, payload, now);
        } else if asBurrow.BurrowFrame? {
          var c := FindClient(ss, asBurrow.clientId);
          if c.Some? && BoundTo(ss[c.value], ss[i].conn.burrowId) {
            ReplyKeeps(ss, c.value, ss[i].conn.burrowId, asBurrow.payload);
          }
        }
    }
  }

  lemma ClientFrameKeeps(ss: seq<Socket>, c: nat, burrowId: string, step: Step, payload: string, now: int)
    requires c < |ss| && Sound(ss) && Registered(ss[c]) && ss[c].conn.Client?
    ensures Keeps(ss, AfterClientFrame(ss, c, burrowId, step, payload, now))
  {
    var b := FindBurrow(ss, burrowId);
    if b.None? {
      PostNeutral(ss, c, Offline(burrowId));
    } else if Silent(ss[b.value], now) {
      var rs := Retire(ss, b.value, GoneSilent);
      RetireKeeps(ss, b.value, GoneSilent);
      PostNeutral(rs, c, Offline(burrowId));
      KeepsThrough(ss, rs, PostAt(rs, c, Offline(burrowId)));
    } else if step.Init? {
      BindKeeps(ss, c, b.value, payload);
      if Calm(ss) {
        BindCalm(ss, c, b.value, payload);
        if Tight(ss) { BindTight(ss, c, b.value, payload); }
      }
    } else if BoundTo(ss[c], burrowId) {
      ForwardKeeps(ss, b.value, ss[c].conn.clientId, step, payload);
      if Calm(ss) { ForwardCalm(ss, c, b.value, step, payload); }
    }
  }

  /** Whether displacing `burrowId`'s socket leaves no Client, closing or stranded, still bound to it. */
  predicate Settled(ss: seq<Socket>, burrowId: string) {
    forall i :: 0 <= i < |ss| && !ss[i].conn.retired && BoundTo(ss[i], burrowId) ==>
      Registered(ss[i]) && FindBurrow(ss, burrowId).Some?
  }

  lemma DisplacedKeeps(ss: seq<Socket>, burrowId: string)
    requires Sound(ss)
    ensures Keeps(ss, Displaced(ss, burrowId))
    ensures forall j :: 0 <= j < |ss| ==> !HoldsBurrow(Displaced(ss, burrowId)[j], burrowId)
    ensures Settled(ss, burrowId) <==>
            forall i :: 0 <= i < |ss| ==>
                Displaced(ss, burrowId)[i].conn.retired || !BoundTo(Displaced(ss, burrowId)[i], burrowId)
  {
    var existing := FindBurrow(ss, burrowId);
    if existing.Some? {
      var rs := Displaced(ss, burrowId);
      RetireKeeps(ss, existing.value, Replaced);
      forall j | 0 <= j < |ss| ensures !HoldsBurrow(rs[j], burrowId) {
        assert Carried(ss[j], rs[j]);
        assert HoldsBurrow(ss[existing.value], burrowId);
      }
      forall i | 0 <= i < |ss|
        ensures rs[i].conn.retired || !BoundTo(rs[i], burrowId) <==>
                ss[i].conn.retired || !BoundTo(ss[i], burrowId) || Registered(ss[i])
      {
      }
    }
  }

  lemma AcceptBurrow(ss: seq<Socket>, s: Socket)
    requires Sound(ss) && s.conn.Burrow? && !s.conn.retired && s.open && s.log == []
    requires forall j :: 0 <= j < |ss| ==> !HoldsBurrow(ss[j], s.conn.burrowId)
    ensures Sound(ss + [s])
    ensures Calm(ss) && (forall i :: 0 <= i < |ss| ==> ss[i].conn.retired || !BoundTo(ss[i], s.conn.burrowId)) ==>
            Calm(ss + [s])
    ensures Tight(ss) ==> Tight(ss + [s])
  {
    AppendAnchored(ss, s);
    if Tight(ss) { AppendTight(ss, s); }
  }

  lemma AcceptClient(ss: seq<Socket>, s: Socket)
    requires Sound(ss) && s.conn.Client? && !s.conn.retired && s.open && s.log == [] && s.conn.bound == None
    requires forall i :: 0 <= i < |ss| && ss[i].conn.Client? ==> ss[i].conn.clientId != s.conn.clientId
    ensures Sound(ss + [s])
    ensures Calm(ss) ==> Calm(ss + [s])
    ensures Tight(ss) ==> Tight(ss + [s])
  {
    AppendAnchored(ss, s);
    if Tight(ss) { AppendTight(ss, s); }
  }

  lemma AppendAnchored(ss: seq<Socket>, s: Socket)
    requires Anchored(ss) && (s.conn.Client? ==> s.conn.bound == None)
    ensures Anchored(ss + [s])
  {
    var rs := ss + [s];
    forall i | 0 <= i < |rs| && Registered(rs[i]) && rs[i].conn.Client? && rs[i].conn.bound.Some?
      ensures exists j :: 0 <= j < |rs| && Attached(rs[j], rs[i].conn.bound.value)
    {
      var j :| 0 <= j < |ss| && Attached(ss[j], ss[i].conn.bound.value);
      assert Attached(rs[j], rs[i].conn.bound.value);
    }
  }

  lemma AppendTight(ss: seq<Socket>, s: Socket)
    requires Tight(ss) && s.open && s.log == []
    ensures Tight(ss + [s])
  {
    var rs := ss + [s];
    forall j, k | 0 <= j < |rs| && Registered(rs[j]) && rs[j].conn.Burrow? && TalkOf(rs[j].log, k).Talking?
      ensures exists i :: 0 <= i < |rs| && HoldsClient(rs[i], k) && BoundTo(rs[i], rs[j].conn.burrowId)
    {
      assert rs[j] == ss[j];
      var i :| 0 <= i < |ss| && HoldsClient(ss[i], k) && BoundTo(ss[i], ss[j].conn.burrowId);
      assert HoldsClient(rs[i], k) && BoundTo(rs[i], rs[j].conn.burrowId);
    }
  }

  // --- Over every run -----------------------------------------------------------------

  /** Whether `e` admits a Burrow only where displacing its old socket leaves no binding behind. */
  predicate Guarded(r: Room, e: Event) {
    e.OpenBurrow? && BurrowAdmitted(r, e.account, e.burrowId, e.read) ==> Settled(r.sockets, e.burrowId)
  }

  lemma OpenClientKeeps(r: Room, e: Event)
    requires e.OpenClient? && Enabled(r, e) && Sound(r.sockets)
    ensures Sound(Next(r, e).sockets)
    ensures Calm(r.sockets) ==> Calm(Next(r, e).sockets)
    ensures Calm(r.sockets) && Tight(r.sockets) ==> Tight(Next(r, e).sockets)
  {
    hide Sound, Calm, Tight, Swept, Clients, IsLive;
    var ss := MadeRoom(r.sockets, e.at);
    SweptKeeps(r.sockets, 0, SilentClients(e.at));
    forall i | 0 <= i < |ss| && ss[i].conn.Client? ensures ss[i].conn.clientId != e.clientId {
      assert ss == r.sockets || Carried(r.sockets[i], ss[i]);
    }
    AcceptClient(ss, NewClient(e.clientId, e.session, e.expiresAt, r.clock, e.at));
  }

  lemma OpenBurrowKeeps(r: Room, e: Event)
    requires e.OpenBurrow? && Enabled(r, e) && Sound(r.sockets)
    ensures Sound(Next(r, e).sockets)
    ensures Calm(r.sockets) && Guarded(r, e) ==> Calm(Next(r, e).sockets)
    ensures Calm(r.sockets) && Tight(r.sockets) ==> Tight(Next(r, e).sockets)
  {
    if BurrowAdmitted(r, e.account, e.burrowId, e.read) {
      DisplacedKeeps(r.sockets, e.burrowId);
      AcceptBurrow(Displaced(r.sockets, e.burrowId), NewBurrow(e.burrowId, r.clock, e.at));
    }
  }

  lemma ClosedKeeps(ss: seq<Socket>, i: nat)
    requires i < |ss| && Sound(ss)
    ensures Sound(AfterClosed(ss, i)) && AllCarried(ss, AfterClosed(ss, i))
    ensures Calm(ss) ==> Calm(AfterClosed(ss, i))
  {
    if !ss[i].conn.retired { UnregisterKeeps(ss, i); }
  }

  lemma LeavingKeeps(ss: seq<Socket>, i: nat)
    requires i < |ss| && Sound(ss)
    ensures Sound(AfterLeaving(ss, i)) && AllCarried(ss, AfterLeaving(ss, i))
    ensures Calm(ss) ==> Calm(AfterLeaving(ss, i))
  {
    Bookkept(ss, i, ss[i].(open := false));
  }

  lemma DisconnectTight(ss: seq<Socket>, i: nat)
    requires i < |ss| && Sound(ss) && Tight(ss)
    ensures Tight(AfterClosed(AfterLeaving(ss, i), i))
  {
    var left := AfterLeaving(ss, i);
    LeavingKeeps(ss, i);
    if ss[i].conn.retired {
      Bookkept(ss, i, left[i]);
    } else {
      forall j, k | 0 <= j < |left| && j != i && Registered(left[j]) && left[j].conn.Burrow? && TalkOf(left[j].log,
          k).Talking?
        ensures exists c :: 0 <= c < |left| && BoundTo(left[c],
                left[j].conn.burrowId) && left[c].conn.clientId == k && !left[c].conn.retired
      {
        var c :| 0 <= c < |ss| && HoldsClient(ss[c], k) && BoundTo(ss[c], ss[j].conn.burrowId);
        assert BoundTo(left[c], left[j].conn.burrowId);
      }
      UnregisterTight(left, i);
    }
  }

  /** Each turn that only handles sockets already held. */
  lemma HeldTurnKeeps(r: Room, e: Event)
    requires Enabled(r, e) && Sound(r.sockets)
    requires !e.LeaveOpen? && !e.Closed? && !e.Disconnect? && !e.OpenBurrow? && !e.OpenClient?
    ensures Keeps(r.sockets, Next(r, e).sockets)
  {
    match e
    case Ping(i) => Bookkept(r.sockets, i, r.sockets[i].(heard := Some(r.clock)));
    case Receive(i, m) => ReceiveKeeps(r.sockets, i, m, r.clock);
    case CloseBurrow(_, burrowId) =>
      var held := FindBurrow(r.sockets, burrowId);
      if held.Some? { RetireKeeps(r.sockets, held.value, Revoked); }
    case CloseSessions(_, ended) => SweptKeeps(r.sockets, 0, OfSessions(ended));
    case NudgeBurrows(_) => SweptKeeps(r.sockets, 0, AllBurrows);
    case OnlineBurrows(_) => SweptKeeps(r.sockets, 0, SilentBurrows(r.clock));
    case AlarmBegin => SweptKeeps(r.sockets, 0, Expired(r.clock));
    case BurrowsRead(read) =>
      SweptKeeps(r.sockets, 0, Unchecked(true, r.sweep.value.start));
      if read.Answered? {
        SweptBurrowsKeeps(r.sockets, r.sweep.value.burrowIds, read.rows, r.account, r.sweep.value.start);
      }
    case ClientsRead(read) =>
      SweptKeeps(r.sockets, 0, Unchecked(false, r.sweep.value.start));
      if read.Answered? {
        SweptKeeps(r.sockets, 0, SessionsRead(r.sweep.value.start, r.sweep.value.sessions,
                                              LiveSessions(read.rows, r.sweep.value.sessions, r.account)));
      }
    case _ =>
  }

  lemma NextKeeps(r: Room, e: Event)
    requires Enabled(r, e) && Sound(r.sockets)
    ensures Sound(Next(r, e).sockets)
    ensures Calm(r.sockets) && Guarded(r, e) ==> Calm(Next(r, e).sockets)
  {
    match e
    case OpenBurrow(_, _, _, _) => OpenBurrowKeeps(r, e);
    case OpenClient(_, _, _, _, _, _) => OpenClientKeeps(r, e);
    case LeaveOpen(i) => LeavingKeeps(r.sockets, i);
    case Closed(i) => ClosedKeeps(r.sockets, i);
    case Disconnect(i) =>
      LeavingKeeps(r.sockets, i);
      ClosedKeeps(AfterLeaving(r.sockets, i), i);
    case _ => HeldTurnKeeps(r, e);
  }

  lemma TightSettled(ss: seq<Socket>, burrowId: string)
    requires Sound(ss) && Tight(ss)
    ensures Settled(ss, burrowId)
  {
    forall i | 0 <= i < |ss| && !ss[i].conn.retired && BoundTo(ss[i], burrowId)
      ensures Registered(ss[i]) && FindBurrow(ss, burrowId).Some?
    {
      var j :| 0 <= j < |ss| && Attached(ss[j], burrowId);
      assert HoldsBurrow(ss[j], burrowId);
    }
  }

  lemma NextTight(r: Room, e: Event)
    requires Enabled(r, e) && Sound(r.sockets) && Calm(r.sockets) && Tight(r.sockets)
    requires !e.LeaveOpen?
    ensures Sound(Next(r, e).sockets) && Calm(Next(r, e).sockets) && Tight(Next(r, e).sockets)
  {
    if e.OpenBurrow? { TightSettled(r.sockets, e.burrowId); }
    NextKeeps(r, e);
    match e
    case OpenBurrow(_, _, _, _) => OpenBurrowKeeps(r, e);
    case OpenClient(_, _, _, _, _, _) => OpenClientKeeps(r, e);
    case Closed(i) =>
    case Disconnect(i) => DisconnectTight(r.sockets, i);
    case _ => HeldTurnKeeps(r, e);
  }
}
