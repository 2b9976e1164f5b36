/** What a one-time room does with each thing that comes to it, and an ordinary rendezvous. */
module OneTimeEffects {
  import opened OneTimeModel
  import opened Wrappers

  /**
   * A message to a room its Burrow has open ends the room exactly when it is binary, too long, or one more than the
   * room takes; otherwise it is counted, and passed as it is to the other end where that is open. Nothing is passed
   * of a room that is not open.
   */
  lemma MessageExactly(l: Limits, r: Room, message: Message, fromBurrow: bool)
    ensures var n := Next(l, r, if fromBurrow then FromBurrow(message) else FromPhone(message));
            var phone := exists k :: 0 <= k < |r.phones| && r.phones[k];
            if r.burrow.None? || !r.burrow.value.open then
              n.burrow == r.burrow && n.phones == r.phones && n.alarm == r.alarm && n.toBurrow == r.toBurrow
              && n.toPhone == r.toPhone && n.ended == r.ended
            else if message.Binary? || |message.text| > l.length || r.burrow.value.state.forwarded >= l.frames then
              && n.ended && n.burrow.Some? && !n.burrow.value.open && n.alarm == None
              && (forall k :: 0 <= k < |n.phones| ==> !n.phones[k])
              && n.toBurrow == r.toBurrow && n.toPhone == r.toPhone
            else
              && n.ended == r.ended && n.alarm == r.alarm && n.phones == r.phones
              && n.burrow == Some(Burrow(true, RoomState(r.burrow.value.state.expiresAt, r.burrow.value.state.joined,
                                                         r.burrow.value.state.forwarded + 1)))
              && n.toPhone == r.toPhone + (if fromBurrow && phone then [message.text] else [])
              && n.toBurrow == r.toBurrow + (if fromBurrow then [] else [message.text])
  {
  }

  /** Whether a phone is let in, and what each other is told. */
  lemma JoinExactly(l: Limits, r: Room, now: nat)
    ensures var n := Next(l, r, Join(now));
            var open := r.burrow.Some? && r.burrow.value.open;
            && (open && !r.burrow.value.state.joined && now <= r.burrow.value.state.expiresAt ==>
                  n == r.(phones := r.phones + [true], burrow := Some(Burrow(true,
                         RoomState(r.burrow.value.state.expiresAt, true, r.burrow.value.state.forwarded)))))
            && (!open ==> n == r.(refused := r.refused + [Unavailable]))
            && (open && r.burrow.value.state.joined ==> n == r.(refused := r.refused + [Taken]))
            && (open && !r.burrow.value.state.joined && now > r.burrow.value.state.expiresAt ==>
                  n == r.(refused := r.refused + [Expired]))
  {
  }

  lemma RunOne(l: Limits, r: Room, events: seq<Event>, k: nat, next: Room)
    requires k < |events| && CanHappen(r, events[k]) && (events[k].Open? ==> r.burrow.None?)
    requires Next(l, r, events[k]) == next
    ensures Run(l, r, events[k..]) == Run(l, next, events[k + 1..])
    ensures k == 0 ==> events[k..] == events
    ensures k + 1 == |events| ==> Run(l, next, events[k + 1..]) == next
  {
    assert events[k..][1..] == events[k + 1..];
  }

  /** A room opened and joined. */
  lemma Joins(l: Limits, now: nat, later: nat, events: seq<Event>)
    requires now <= later <= now + l.ttl && |events| > 2 && events[0] == Open(now) && events[1] == Join(later)
    ensures Run(l, Fresh, events) ==
            Run(l, Room(Some(Burrow(true, RoomState(now + l.ttl, true, 0))), [true], Some(now + l.ttl + l.grace), false,
                        [], [], [], [], []), events[2..])
  {
    var r1 := Fresh.(burrow := Some(Burrow(true, RoomState(now + l.ttl, false, 0))),
        alarm := Some(now + l.ttl + l.grace));
    var r2 := r1.(burrow := Some(Burrow(true, RoomState(now + l.ttl, true, 0))), phones := [true]);
    hide Run;
    RunOne(l, Fresh, events, 0, r1);
    RunOne(l, r1, events, 1, r2);
  }

  /**
   * A room opened, a phone joined, a frame each way: both are passed, and both ends stay open until the deadline
   * closes them.
   */
  lemma Rendezvouses(l: Limits, now: nat, later: nat, a: string, b: string)
    requires now <= later <= now + l.ttl && l.frames >= 2 && |a| <= l.length && |b| <= l.length
    ensures var r := Run(l, Fresh, [Open(now), Join(later), FromBurrow(Text(a)), FromPhone(Text(b))]);
            && r == Room(Some(Burrow(true, RoomState(now + l.ttl, true, 2))), [true], Some(now + l.ttl + l.grace),
                false,
                         [], [b], [a], [a], [b])
            && Next(l, r, Alarm) == r.(burrow := Some(Burrow(false, RoomState(now + l.ttl, true, 2))),
                phones := [false],
                                       alarm := None, ended := true)
  {
    var events := [Open(now), Join(later), FromBurrow(Text(a)), FromPhone(Text(b))];
    var r2 := Room(Some(Burrow(true, RoomState(now + l.ttl, true, 0))), [true], Some(now + l.ttl + l.grace), false,
                   [], [], [], [], []);
    var r3 := r2.(burrow := Some(Burrow(true, RoomState(now + l.ttl, true, 1))), toPhone := [a], ofBurrow := [a]);
    var r4 := r3.(burrow := Some(Burrow(true, RoomState(now + l.ttl, true, 2))), toBurrow := [b], ofPhone := [b]);
    assert PhoneOpen(r2) by { assert r2.phones[0]; }
    assert Next(l, r2, events[2]) == r3 && Next(l, r3, events[3]) == r4;
    hide Run;
    assert AllShut([true]) == [false];
    assert Next(l, r4, Alarm) == r4.(burrow := Some(Burrow(false, RoomState(now + l.ttl, true, 2))), phones := [false],
                                     alarm := None, ended := true);
    hide Next;
    Joins(l, now, later, events);
    RunOne(l, r2, events, 2, r3);
    RunOne(l, r3, events, 3, r4);
  }

  /** A room opens unless an end of an earlier one is open still. */
  lemma OpenExactly(l: Limits, r: Room, now: nat)
    ensures var busy := (r.burrow.Some? && r.burrow.value.open) || exists k :: 0 <= k < |r.phones| && r.phones[k];
            Next(l, r, Open(now)) ==
            if busy then r.(refused := r.refused + [Unavailable])
            else r.(burrow := Some(Burrow(true, RoomState(now + l.ttl, false, 0))),
                alarm := Some(now + l.ttl + l.grace))
  {
  }
}
