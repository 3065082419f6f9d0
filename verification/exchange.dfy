/** RoutePhones: the bidirectional exchange that answers every inbound person
    with its phone numbers. */
module Exchange {
  import opened Proto
  import opened Streams

  /** The phones put on the wire, and how the session ended. */
  datatype Routed = Routed(sent: seq<PhoneNumber>, status: Status)

  /** All phones of the given persons, person by person in order. */
  function Flatten(ps: seq<Person>): seq<PhoneNumber>
  {
    if |ps| == 0 then [] else ps[0].phones + Flatten(ps[1..])
  }

  /** The receives from number `i` on are the messages carrying `ps`, in order. */
  ghost predicate CarriesAt(events: seq<Recv>, i: nat, ps: seq<Person>)
    decreases |ps|
  {
    && i + |ps| <= |events|
    && (|ps| == 0 || (events[i] == Message(ps[0]) && CarriesAt(events, i + 1, ps[1..])))
  }

  /** The copy taken under the lock: `rn := make([]*pb.PhoneNumber, len(person.Phones));
      copy(rn, person.Phones)`. It equals the person's phone list. In Go the
      slots of the fresh slice are nil pointers; `EmptyPhone` stands in for
      them here, and which value does is immaterial because the copy
      overwrites every slot. */
  function Snapshot(p: Person): (rn: seq<PhoneNumber>)
    ensures rn == p.phones
  {
    CopyIntoFresh(p.phones, EmptyPhone);
    Copy(Make(|p.phones|, EmptyPhone), p.phones)
  }

  /** The handler from receive number `i` on, with the copied phones `rn` of the
      current person still to send; `k` counts the sends made so far. */
  function RouteFrom(events: seq<Recv>, sends: seq<SendOutcome>, i: nat, rn: seq<PhoneNumber>, k: nat): (r: Routed)
    requires i <= |events|
    decreases |events| - i, |rn|
  {
    if |rn| > 0 then
      match SendAt(sends, k)
      case SendFailed(e) => Routed([], Returned(Some(e)))
      case Delivered =>
        var rest := RouteFrom(events, sends, i, rn[1..], k + 1);
        Routed([rn[0]] + rest.sent, rest.status)
    else if i == |events| then Routed([], Blocked)
    else
      var ev := events[i];
      if ev.err == Some(EOF) then Routed([], Returned(None))
      else if ev.err.Some? then Routed([], Returned(ev.err))
      else if ev.person.None? then Routed([], Panicked)
      else RouteFrom(events, sends, i + 1, Snapshot(ev.person.value), k)
  }

  /** How the receive loop ends on a receive that is not a plain message:
      nil on `io.EOF`, any other error returned as is, and a nil-pointer panic
      on `person.Phones` when neither a person nor an error came back. */
  function Ending(ev: Recv): Status
  {
    if ev.err == Some(EOF) then Returned(None)
    else if ev.err.Some? then Returned(ev.err)
    else Panicked
  }

  /** The persons of the run of plain messages the stream starts with. Its
      length bound only makes `events[|Inbound(events)|..]` well defined. */
  function Inbound(events: seq<Recv>): (ps: seq<Person>)
    ensures |ps| <= |events|
    decreases |events|
  {
    if |events| == 0 || events[0].err.Some? || events[0].person.None? then []
    else [events[0].person.value] + Inbound(events[1..])
  }

  /** Every stream is the messages of its inbound persons followed by the
      rest, and the rest starts with a receive that is not a plain message. */
  lemma {:induction false} InboundSplits(events: seq<Recv>)
    ensures events == Messages(Inbound(events)) + events[|Inbound(events)|..]
    ensures |Inbound(events)| < |events| ==>
              events[|Inbound(events)|].err.Some? || events[|Inbound(events)|].person.None?
    decreases |events|
  {
    if |events| > 0 && events[0].err.None? && events[0].person.Some? {
      var ps := Inbound(events);
      InboundSplits(events[1..]);
      assert ps == [events[0].person.value] + Inbound(events[1..]);
      assert Messages(ps) == [Message(events[0].person.value)] + Messages(Inbound(events[1..]));
      assert events[1..][|ps| - 1..] == events[|ps|..];
      assert events == [events[0]] + events[1..];
    }
  }

  /** The whole handler, from its first receive, in terms of its inbound persons. */
  lemma RouteFromStart(events: seq<Recv>, sends: seq<SendOutcome>)
    ensures var ps := Inbound(events);
            DeliversAll(sends, 0, |Flatten(ps)|) ==>
              RouteFrom(events, sends, 0, [], 0) ==
              Routed(Flatten(ps), if |ps| == |events| then Blocked else Ending(events[|ps|]))
    ensures var ps := Inbound(events);
            forall m: nat :: m < |Flatten(ps)| && DeliversAll(sends, 0, m) && SendAt(sends, m).SendFailed? ==>
              RouteFrom(events, sends, 0, [], 0) == Routed(Flatten(ps)[..m], Returned(Some(SendAt(sends, m).err)))
  {
    var ps := Inbound(events);
    InboundSplits(events);
    CarriesMessages([], ps, events[|ps|..]);
    assert [] + Messages(ps) + events[|ps|..] == events;
    if DeliversAll(sends, 0, |Flatten(ps)|) {
      RouteFromMessages(events, ps, sends, 0, 0);
    }
    forall m: nat | m < |Flatten(ps)| && DeliversAll(sends, 0, m) && SendAt(sends, m).SendFailed?
      ensures RouteFrom(events, sends, 0, [], 0) == Routed(Flatten(ps)[..m], Returned(Some(SendAt(sends, m).err)))
    {
      RouteFromSendFails(events, ps, sends, 0, 0, m);
    }
  }

  /** `RoutePhones`. Its inbound persons are answered with all their phones
      in arrival order. When every one of those sends is delivered, the
      session then ends on the first receive that is not a plain message, or
      is still waiting in `Recv` if there is none. Otherwise the first failed
      send ends it with that send's error, after the phones before it. */
  function RoutePhones(events: seq<Recv>, sends: seq<SendOutcome>): (r: Routed)
    ensures var ps := Inbound(events);
            DeliversAll(sends, 0, |Flatten(ps)|) ==>
              r == Routed(Flatten(ps), if |ps| == |events| then Blocked else Ending(events[|ps|]))
    ensures var ps := Inbound(events);
            forall m: nat :: m < |Flatten(ps)| && DeliversAll(sends, 0, m) && SendAt(sends, m).SendFailed? ==>
              r == Routed(Flatten(ps)[..m], Returned(Some(SendAt(sends, m).err)))
  {
    RouteFromStart(events, sends);
    RouteFrom(events, sends, 0, [], 0)
  }

  lemma DeliversAllSplit(sends: seq<SendOutcome>, k: nat, a: nat, b: nat)
    requires DeliversAll(sends, k, a + b)
    ensures DeliversAll(sends, k, a) && DeliversAll(sends, k + a, b)
  {
  }

  /** With its sends delivered, the copied list goes out whole, in order. */
  lemma {:induction false} RouteFromDrains(events: seq<Recv>, sends: seq<SendOutcome>, i: nat, rn: seq<PhoneNumber>, k: nat)
    requires i <= |events|
    requires DeliversAll(sends, k, |rn|)
    ensures RouteFrom(events, sends, i, rn, k) ==
            var rest := RouteFrom(events, sends, i, [], k + |rn|);
            Routed(rn + rest.sent, rest.status)
    decreases |rn|
  {
    if |rn| > 0 {
      RouteFromDrains(events, sends, i, rn[1..], k + 1);
      var rest := RouteFrom(events, sends, i, [], k + |rn|);
      assert [rn[0]] + (rn[1..] + rest.sent) == rn + rest.sent;
    } else {
      var rest := RouteFrom(events, sends, i, [], k);
      assert [] + rest.sent == rest.sent;
    }
  }

  /** A failed send while the copied list goes out ends the session with its error. */
  lemma {:induction false} RouteFromDrainFails(events: seq<Recv>, sends: seq<SendOutcome>, i: nat, rn: seq<PhoneNumber>, k: nat, m: nat)
    requires i <= |events|
    requires m < |rn|
    requires DeliversAll(sends, k, m)
    requires SendAt(sends, k + m).SendFailed?
    ensures RouteFrom(events, sends, i, rn, k) == Routed(rn[..m], Returned(Some(SendAt(sends, k + m).err)))
    decreases m
  {
    if m > 0 {
      RouteFromDrainFails(events, sends, i, rn[1..], k + 1, m - 1);
      assert [rn[0]] + rn[1..][..m - 1] == rn[..m];
    }
  }

  /** While sends succeed, a run of messages is answered with all their phones
      in arrival order, and the session goes on with what follows. */
  lemma {:induction false} RouteFromMessages(events: seq<Recv>, ps: seq<Person>, sends: seq<SendOutcome>, i: nat, k: nat)
    requires CarriesAt(events, i, ps)
    requires DeliversAll(sends, k, |Flatten(ps)|)
    ensures RouteFrom(events, sends, i, [], k) ==
            var rest := RouteFrom(events, sends, i + |ps|, [], k + |Flatten(ps)|);
            Routed(Flatten(ps) + rest.sent, rest.status)
    decreases |ps|
  {
    if |ps| > 0 {
      var phones := ps[0].phones;
      assert Flatten(ps) == phones + Flatten(ps[1..]);
      DeliversAllSplit(sends, k, |phones|, |Flatten(ps[1..])|);
      RouteFromDrains(events, sends, i + 1, phones, k);
      RouteFromMessages(events, ps[1..], sends, i + 1, k + |phones|);
      var rest := RouteFrom(events, sends, i + |ps|, [], k + |Flatten(ps)|);
      assert phones + (Flatten(ps[1..]) + rest.sent) == Flatten(ps) + rest.sent;
    } else {
      var rest := RouteFrom(events, sends, i, [], k);
      assert [] + rest.sent == rest.sent;
    }
  }

  /** If send number `k + m` is the first to fail, the session has sent exactly
      the first `m` phones and returns that send's error. */
  lemma {:induction false} RouteFromSendFails(events: seq<Recv>, ps: seq<Person>, sends: seq<SendOutcome>, i: nat, k: nat, m: nat)
    requires CarriesAt(events, i, ps)
    requires m < |Flatten(ps)|
    requires DeliversAll(sends, k, m)
    requires SendAt(sends, k + m).SendFailed?
    ensures RouteFrom(events, sends, i, [], k) == Routed(Flatten(ps)[..m], Returned(Some(SendAt(sends, k + m).err)))
    decreases |ps|
  {
    var phones := ps[0].phones;
    assert Flatten(ps) == phones + Flatten(ps[1..]);
    if m < |phones| {
      RouteFromDrainFails(events, sends, i + 1, phones, k, m);
      assert Flatten(ps)[..m] == phones[..m];
    } else {
      DeliversAllSplit(sends, k, |phones|, m - |phones|);
      RouteFromDrains(events, sends, i + 1, phones, k);
      RouteFromSendFails(events, ps[1..], sends, i + 1, k + |phones|, m - |phones|);
      assert Flatten(ps)[..m] == phones + Flatten(ps[1..])[..m - |phones|];
    }
  }

  /** A stream holding the messages of `ps` after `before` receives carries them there. */
  lemma {:induction false} CarriesMessages(before: seq<Recv>, ps: seq<Person>, after: seq<Recv>)
    ensures CarriesAt(before + Messages(ps) + after, |before|, ps)
    decreases |ps|
  {
    if |ps| > 0 {
      assert before + Messages(ps) + after == (before + [Message(ps[0])]) + Messages(ps[1..]) + after;
      CarriesMessages(before + [Message(ps[0])], ps[1..], after);
    }
  }

  /** The stream `ps` as messages, then `last`, then anything. */
  lemma MessagesThen(ps: seq<Person>, last: Recv, tail: seq<Recv>)
    ensures CarriesAt(Messages(ps) + [last] + tail, 0, ps)
    ensures (Messages(ps) + [last] + tail)[|ps|] == last
  {
    CarriesMessages([], ps, [last] + tail);
    assert [] + Messages(ps) + ([last] + tail) == Messages(ps) + [last] + tail;
  }

  /** The inbound persons of a run of messages followed by a receive that is
      not a plain message, or by nothing, are the persons of the run. */
  lemma {:induction false} InboundMessages(ps: seq<Person>, rest: seq<Recv>)
    requires |rest| > 0 ==> rest[0].err.Some? || rest[0].person.None?
    ensures Inbound(Messages(ps) + rest) == ps
    decreases |ps|
  {
    if |ps| > 0 {
      var evs := Messages(ps) + rest;
      assert evs[0] == Message(ps[0]);
      assert evs[1..] == Messages(ps[1..]) + rest;
      InboundMessages(ps[1..], rest);
      assert ps == [ps[0]] + ps[1..];
    } else {
      assert Messages(ps) + rest == rest;
    }
  }

  /** Messages then end-of-input, every send delivered: the output is the
      concatenation of the inbound phone lists and the result is nil. */
  lemma RoutePhonesCompletes(ps: seq<Person>, tail: seq<Recv>, sends: seq<SendOutcome>)
    requires DeliversAll(sends, 0, |Flatten(ps)|)
    ensures RoutePhones(Messages(ps) + [Closed] + tail, sends) == Routed(Flatten(ps), Returned(None))
  {
    RoutePhonesStops(ps, Closed, tail, sends);
  }

  /** A read failure after the messages returns that error, after their phones. */
  lemma RoutePhonesBroken(ps: seq<Person>, message: string, tail: seq<Recv>, sends: seq<SendOutcome>)
    requires DeliversAll(sends, 0, |Flatten(ps)|)
    ensures RoutePhones(Messages(ps) + [Broken(message)] + tail, sends) ==
            Routed(Flatten(ps), Returned(Some(Failure(message))))
  {
    RoutePhonesStops(ps, Broken(message), tail, sends);
  }

  /** After a run of messages, the first receive that is not a plain message
      ends the session: nil on EOF, any other error returned as is, and a
      panic on a pair with neither a person nor an error. */
  lemma RoutePhonesStops(ps: seq<Person>, last: Recv, tail: seq<Recv>, sends: seq<SendOutcome>)
    requires last.err.Some? || last.person.None?
    requires DeliversAll(sends, 0, |Flatten(ps)|)
    ensures RoutePhones(Messages(ps) + [last] + tail, sends) == Routed(Flatten(ps), Ending(last))
  {
    var events := Messages(ps) + [last] + tail;
    assert events == Messages(ps) + ([last] + tail);
    InboundMessages(ps, [last] + tail);
    assert events[|ps|] == last;
  }

  /** Messages and no end-of-input yet: all their phones are out and the
      handler is still waiting for the next receive. */
  lemma RoutePhonesWaits(ps: seq<Person>, sends: seq<SendOutcome>)
    requires DeliversAll(sends, 0, |Flatten(ps)|)
    ensures RoutePhones(Messages(ps), sends) == Routed(Flatten(ps), Blocked)
  {
    InboundMessages(ps, []);
    assert Messages(ps) + [] == Messages(ps);
  }

  /** A failed send ends the session at once with that send's error, whatever
      the stream holds after the messages. */
  lemma RoutePhonesSendFails(ps: seq<Person>, last: Recv, tail: seq<Recv>, sends: seq<SendOutcome>, m: nat)
    requires m < |Flatten(ps)|
    requires DeliversAll(sends, 0, m)
    requires SendAt(sends, m).SendFailed?
    ensures RoutePhones(Messages(ps) + [last] + tail, sends) ==
            Routed(Flatten(ps)[..m], Returned(Some(SendAt(sends, m).err)))
  {
    MessagesThen(ps, last, tail);
    RouteFromSendFails(Messages(ps) + [last] + tail, ps, sends, 0, 0, m);
  }
}
