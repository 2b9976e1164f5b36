/**
 * A one-time link's rendezvous: one Burrow, at most one phone, text frames passed between them as they
 * are until either leaves, one too many or too long is sent, or the deadline comes.
 */
module OneTimeModel {
  import opened Wrappers

  /** How long a link lasts, the grace past it, the frames a room takes and the longest of them. */
  datatype Limits = Limits(ttl: nat, grace: nat, frames: nat, length: nat)

  /** What the Burrow's socket carries. */
  datatype RoomState = RoomState(expiresAt: nat, joined: bool, forwarded: nat)

  datatype Burrow = Burrow(open: bool, state: RoomState)

  datatype Message = Text(text: string) | Binary

  datatype Refusal = Unavailable | Taken | Expired

  /**
   * The room, whose phones are all it ever accepted, by whether each is open; `toBurrow` and `toPhone`
   * what was sent to the ends, `ofBurrow` and `ofPhone` every text frame they gave since the join.
   */
  datatype Room = Room(burrow: Option<Burrow>, phones: seq<bool>, alarm: Option<nat>, ended: bool,
    refused: seq<Refusal>,
                       toBurrow: seq<string>, toPhone: seq<string>, ofBurrow: seq<string>, ofPhone: seq<string>)

  const Fresh := Room(None, [], None, false, [], [], [], [], [])

  /** `Leave` is an end that left, `Closed` the room told of it, perhaps much later. */
  datatype Event = Open(now: nat) | Join(now: nat) | FromBurrow(message: Message) | FromPhone(message: Message)
    | LeaveBurrow | LeavePhone | Closed | Alarm

  predicate BurrowOpen(r: Room) {
    r.burrow.Some? && r.burrow.value.open
  }

  predicate PhoneOpen(r: Room) {
    exists k :: 0 <= k < |r.phones| && r.phones[k]
  }

  function AllShut(phones: seq<bool>): (r: seq<bool>)
    ensures |r| == |phones| && forall k :: 0 <= k < |r| ==> !r[k]
  {
    seq(|phones|, _ => false)
  }

  function Ended(r: Room): Room {
    r.(burrow := if r.burrow.Some? then Some(r.burrow.value.(open := false)) else None,
       phones := AllShut(r.phones), alarm := None, ended := true)
  }

  /** A message taken from one end; a text frame goes to the other, if that is open. */
  function Passed(l: Limits, r: Room, message: Message, fromBurrow: bool): Room {
    var heard := if message.Binary? || r.burrow.None? || !r.burrow.value.state.joined then r
                 else if fromBurrow then r.(ofBurrow := r.ofBurrow + [message.text])
                     else r.(ofPhone := r.ofPhone + [message.text]);
    if !BurrowOpen(r) then heard
    else
      var forwarded := r.burrow.value.state.forwarded + 1;
      if message.Binary? || |message.text| > l.length || forwarded > l.frames then Ended(heard)
      else
        var counted := heard.(burrow := Some(r.burrow.value.(state := r.burrow.value.state.(forwarded := forwarded))));
        if fromBurrow then if PhoneOpen(r) then counted.(toPhone := r.toPhone + [message.text]) else counted
        else counted.(toBurrow := r.toBurrow + [message.text])
  }

  function Next(l: Limits, r: Room, event: Event): Room {
    match event
    case Open(now) =>
      if BurrowOpen(r) || PhoneOpen(r) then r.(refused := r.refused + [Unavailable])
      else r.(burrow := Some(Burrow(true, RoomState(now + l.ttl, false, 0))), alarm := Some(now + l.ttl + l.grace))
    case Join(now) =>
      if !BurrowOpen(r) then r.(refused := r.refused + [Unavailable])
      else if r.burrow.value.state.joined then r.(refused := r.refused + [Taken])
      else if now > r.burrow.value.state.expiresAt then r.(refused := r.refused + [Expired])
      else r.(burrow := Some(r.burrow.value.(state := r.burrow.value.state.(joined := true))),
          phones := r.phones + [true])
    case FromBurrow(message) => Passed(l, r, message, true)
    case FromPhone(message) => Passed(l, r, message, false)
    case LeaveBurrow => if r.burrow.Some? then r.(burrow := Some(r.burrow.value.(open := false))) else r
    case LeavePhone => r.(phones := AllShut(r.phones))
    case Closed => Ended(r)
    case Alarm => Ended(r)
  }

  /**
   * A message comes from a phone only once one has joined, a close of a socket accepted, and an alarm when it
   * is set.
   */
  predicate CanHappen(r: Room, event: Event) {
    (event.FromPhone? ==> r.phones != []) && (event.FromBurrow? || event.Closed? ==> r.burrow.Some?)
        && (event.Alarm? ==> r.alarm.Some?)
  }

  // --- What every run keeps -------------------------------------------------------------------------

  /** `got` is how `said` starts. */
  predicate StartOf(got: seq<string>, said: seq<string>) {
    |got| <= |said| && got == said[..|got|]
  }

  predicate Sound(l: Limits, r: Room) {
    && |r.phones| <= 1
    && (r.burrow.None? ==> r.alarm.None? && r.phones == [] && r.toBurrow == [] && r.toPhone == [])
    && (r.burrow.Some? ==>
          && (r.phones != [] <==> r.burrow.value.state.joined)
          && |r.toBurrow| + |r.toPhone| <= r.burrow.value.state.forwarded <= l.frames
          && (r.burrow.value.open ==> !r.ended && r.alarm == Some(r.burrow.value.state.expiresAt + l.grace)))
    && (r.phones == [] ==> r.ofBurrow == [] && r.ofPhone == [] && r.toBurrow == [] && r.toPhone == [])
    && StartOf(r.toPhone, r.ofBurrow) && StartOf(r.toBurrow, r.ofPhone)
    && (BurrowOpen(r) && PhoneOpen(r) ==> r.toPhone == r.ofBurrow)
    && (BurrowOpen(r) ==> r.toBurrow == r.ofPhone)
    && (r.ended ==> r.burrow.Some? && !BurrowOpen(r) && !PhoneOpen(r) && r.alarm.None?)
  }

  lemma StartGrows(got: seq<string>, said: seq<string>, text: string)
    requires StartOf(got, said)
    ensures StartOf(got, said + [text])
    ensures got == said ==> StartOf(got + [text], said + [text])
  {
    assert (said + [text])[..|got|] == said[..|got|];
  }

  lemma PassedSound(l: Limits, r: Room, message: Message, fromBurrow: bool)
    requires Sound(l, r) && r.burrow.Some? && (!fromBurrow ==> r.phones != [])
    ensures Sound(l, Passed(l, r, message, fromBurrow))
  {
    if message.Text? {
      StartGrows(r.toPhone, r.ofBurrow, message.text);
      StartGrows(r.toBurrow, r.ofPhone, message.text);
    }
    hide StartOf;
  }

  lemma NextSound(l: Limits, r: Room, event: Event)
    requires Sound(l, r) && CanHappen(r, event) && (event.Open? ==> r.burrow.None?)
    ensures Sound(l, Next(l, r, event))
  {
    match event
    case FromBurrow(message) => PassedSound(l, r, message, true);
    case FromPhone(message) => PassedSound(l, r, message, false);
    case _ =>
  }

  /** The run of a room whose id names it alone, so that it opens once. */
  function Run(l: Limits, r: Room, events: seq<Event>): Room
    decreases |events|
  {
    if events == [] then r
    else
      var event := events[0];
      Run(l, if CanHappen(r, event) && (event.Open? ==> r.burrow.None?) then Next(l, r, event) else r, events[1..])
  }

  lemma {:induction false} RunSound(l: Limits, r: Room, events: seq<Event>)
    requires Sound(l, r)
    ensures Sound(l, Run(l, r, events))
    decreases |events|
  {
    if events != [] {
      var event := events[0];
      if CanHappen(r, event) && (event.Open? ==> r.burrow.None?) {
        NextSound(l, r, event);
        RunSound(l, Next(l, r, event), events[1..]);
      } else {
        RunSound(l, r, events[1..]);
      }
    }
  }

  /**
   * However it runs, a room accepts one phone at most; each end has had exactly the first of the other's
   * frames, all of them while both are open; what passed is within the bound; and an open room has its deadline set.
   */
  lemma Rendezvous(l: Limits, events: seq<Event>)
    ensures var r := Run(l, Fresh, events);
            && |r.phones| <= 1
            && StartOf(r.toPhone, r.ofBurrow) && StartOf(r.toBurrow, r.ofPhone)
            && (BurrowOpen(r) && PhoneOpen(r) ==> r.toPhone == r.ofBurrow && r.toBurrow == r.ofPhone)
            && |r.toPhone| + |r.toBurrow| <= l.frames
            && (BurrowOpen(r) ==> r.alarm == Some(r.burrow.value.state.expiresAt + l.grace))
  {
    RunSound(l, Fresh, events);
  }

  /** Once a room has ended, nothing more is delivered or joined, whatever was in flight. */
  lemma {:induction false} NothingAfterTheEnd(l: Limits, r: Room, events: seq<Event>)
    requires Sound(l, r) && r.ended && r.burrow.Some?
    ensures var after := Run(l, r, events);
            after.ended && after.toBurrow == r.toBurrow && after.toPhone == r.toPhone && |after.phones| == |r.phones|
    decreases |events|
  {
    if events != [] {
      var event := events[0];
      if CanHappen(r, event) && (event.Open? ==> r.burrow.None?) {
        NextSound(l, r, event);
        NothingAfterTheEnd(l, Next(l, r, event), events[1..]);
      } else {
        NothingAfterTheEnd(l, r, events[1..]);
      }
    }
  }

  /** A second phone is refused, as is one past the link's time. */
  lemma OnlyInTime(l: Limits, r: Room, now: nat)
    requires Sound(l, r)
    ensures var after := Next(l, r, Join(now));
            |after.phones| > |r.phones| <==> BurrowOpen(r) && r.phones == [] && now <= r.burrow.value.state.expiresAt
  {
  }
}

module OneTimeObject {
  import opened Wrappers
  import opened OneTimeModel

  /** The room's object: its state is in the Burrow socket's attachment, copied, changed and written back. */
  class OneTimeRoom {
    const limits: Limits
    var burrow: Option<Burrow>
    var phones: seq<bool>
    var alarm: Option<nat>
    var refused: seq<Refusal>
    ghost var ended: bool
    var toBurrow: seq<string>
    var toPhone: seq<string>
    ghost var ofBurrow: seq<string>
    ghost var ofPhone: seq<string>

    ghost function State(): Room
      reads this
    {
      Room(burrow, phones, alarm, ended, refused, toBurrow, toPhone, ofBurrow, ofPhone)
    }

    constructor (limits: Limits)
      ensures State() == Fresh && this.limits == limits
    {
      this.limits := limits;
      burrow, phones, alarm, refused, ended := None, [], None, [], false;
      toBurrow, toPhone, ofBurrow, ofPhone := [], [], [], [];
    }

    /** Whether some socket of the role is open. */
    method OpenPhone() returns (open: bool)
      ensures open == PhoneOpen(State())
    {
      open := false;
      for k := 0 to |phones|
        invariant open <==> exists j :: 0 <= j < k && phones[j]
      {
        if phones[k] {
          open := true;
        }
      }
    }

    method Open(now: nat)
      modifies this
      ensures State() == Next(limits, old(State()), Event.Open(now))
    {
      var phone := OpenPhone();
      if (burrow.Some? && burrow.value.open) || phone {
        refused := refused + [Unavailable];
        return;
      }
      alarm := Some(now + limits.ttl + limits.grace);
      burrow := Some(Burrow(true, RoomState(now + limits.ttl, false, 0)));
    }

    method Join(now: nat)
      modifies this
      ensures State() == Next(limits, old(State()), Event.Join(now))
    {
      if burrow.None? || !burrow.value.open {
        refused := refused + [Unavailable];
        return;
      }
      var state := burrow.value.state;
      if state.joined {
        refused := refused + [Taken];
        return;
      }
      if now > state.expiresAt {
        refused := refused + [Expired];
        return;
      }
      burrow := Some(burrow.value.(state := state.(joined := true)));
      phones := phones + [true];
    }

    method WebSocketMessage(message: Message, fromBurrow: bool)
      modifies this
      ensures State() == Next(limits, old(State()), if fromBurrow then FromBurrow(message) else FromPhone(message))
    {
      if message.Text? && burrow.Some? && burrow.value.state.joined {
        if fromBurrow {
          ofBurrow := ofBurrow + [message.text];
        } else {
          ofPhone := ofPhone + [message.text];
        }
      }
      if burrow.None? || !burrow.value.open {
        return;
      }
      var state := burrow.value.state;
      var forwarded := state.forwarded + 1;
      if message.Binary? || |message.text| > limits.length || forwarded > limits.frames {
        End();
        return;
      }
      burrow := Some(burrow.value.(state := state.(forwarded := forwarded)));
      if fromBurrow {
        var phone := OpenPhone();
        if phone {
          toPhone := toPhone + [message.text];
        }
      } else {
        toBurrow := toBurrow + [message.text];
      }
    }

    method WebSocketClose()
      modifies this
      ensures State() == Next(limits, old(State()), Closed)
    {
      End();
    }

    method AlarmFires()
      modifies this
      ensures State() == Next(limits, old(State()), Alarm)
    {
      End();
    }

    method End()
      modifies this
      ensures State() == Ended(old(State()))
    {
      if burrow.Some? {
        burrow := Some(burrow.value.(open := false));
      }
      for k := 0 to |phones|
        invariant burrow == (if old(burrow).Some? then Some(old(burrow).value.(open := false)) else None)
        invariant |phones| == |old(phones)| && forall j :: 0 <= j < |phones| ==>
                  phones[j] == if j < k then false else old(phones[j])
        invariant State() == old(State()).(burrow := burrow, phones := phones)
      {
        phones := phones[k := false];
      }
      assert phones == AllShut(old(phones));
      alarm := None;
      ended := true;
    }
  }
}
