/** RecordPersons: the client-streaming collector. */
module Collect {
  import opened Proto
  import opened Streams
  import opened Registry

  /** The person appended to the book when a session completes. */
  const Synthetic: Person :=
    Person("Another part in the world", 11, "anotherpartintheworld@gmail.com", Phones, None)

  /** The person with its client-supplied timestamp overwritten by the server's. */
  function Stamp(p: Person, t: Timestamp): Person
  {
    p.(lastUpdated := Some(t))
  }

  /** The state after a session, the book sent back (if it was delivered), and how it ended. */
  datatype Recorded = Recorded(server: Server, reply: Option<AddressBook>, status: Status)

  /** Receive number `n` is the one that ends the receive loop: the first with a non-nil error. */
  ghost predicate EndsAt(events: seq<Recv>, n: int)
  {
    && 0 <= n < |events|
    && events[n].err.Some?
    && forall j :: 0 <= j < n ==> events[j].err.None?
  }

  /** The person the odd guard `err != nil && person != nil` appends when the loop ends at receive `n`. */
  function GuardAppend(ev: Recv, t: Timestamp): seq<Person>
  {
    if ev.err.Some? && ev.person.Some? then [Stamp(ev.person.value, t)] else []
  }

  /** The receive loop from receive number `i` on; `clock(i)` is `time.Now()`
      at receive `i` and `closing` the outcome of `SendAndClose`. */
  function RecordFrom(s: Server, events: seq<Recv>, clock: nat -> Timestamp, closing: SendOutcome, i: nat): (r: Recorded)
    requires i <= |events|
    ensures (forall j :: i <= j < |events| ==> events[j].err.None?) ==> r == Recorded(s, None, Blocked)
    ensures forall n :: i <= n < |events| && events[n].err.Some? && (forall j :: i <= j < n ==> events[j].err.None?) ==>
              r.server.savedPersons == s.savedPersons + GuardAppend(events[n], clock(n))
    ensures forall n :: i <= n < |events| && events[n].err == Some(EOF) && (forall j :: i <= j < n ==> events[j].err.None?) ==>
              && r.server.book.people == s.book.people + [Synthetic]
              && r.reply == (if closing.Delivered? then Some(r.server.book) else None)
              && r.status == Returned(if closing.Delivered? then None else Some(closing.err))
    ensures forall n :: i <= n < |events| && events[n].err.Some? && events[n].err.value.Failure? && (forall j :: i <= j < n ==> events[j].err.None?) ==>
              r == Recorded(s.(savedPersons := s.savedPersons + GuardAppend(events[n], clock(n))), None, Returned(events[n].err))
    decreases |events| - i
  {
    if i == |events| then Recorded(s, None, Blocked)
    else
      var ev := events[i];
      var s1 := s.(savedPersons := s.savedPersons + GuardAppend(ev, clock(i)));
      if ev.err == Some(EOF) then
        var s2 := s1.(book := AddressBook(s1.book.people + [Synthetic]));
        match closing
        case Delivered => Recorded(s2, Some(s2.book), Returned(None))
        case SendFailed(e) => Recorded(s2, None, Returned(Some(e)))
      else if ev.err.Some? then Recorded(s1, None, Returned(ev.err))
      else RecordFrom(s1, events, clock, closing, i + 1)
  }

  /** `RecordPersons`: the loop ends at the first receive with a non-nil error.
      That receive alone can trip the append guard. On `io.EOF` the synthetic
      person joins the book, which is sent back; any other error is returned
      and the book is left alone. A stream that never ends leaves the state as it was. */
  function RecordPersons(s: Server, events: seq<Recv>, clock: nat -> Timestamp, closing: SendOutcome): (r: Recorded)
    ensures (forall j :: 0 <= j < |events| ==> events[j].err.None?) ==> r == Recorded(s, None, Blocked)
    ensures forall n :: EndsAt(events, n) ==>
              r.server.savedPersons == s.savedPersons + GuardAppend(events[n], clock(n))
    ensures forall n :: EndsAt(events, n) && events[n].err == Some(EOF) ==>
              && r.server.book.people == s.book.people + [Synthetic]
              && r.reply == (if closing.Delivered? then Some(r.server.book) else None)
              && r.status == Returned(if closing.Delivered? then None else Some(closing.err))
    ensures forall n :: EndsAt(events, n) && events[n].err.value.Failure? ==>
              r == Recorded(s.(savedPersons := s.savedPersons + GuardAppend(events[n], clock(n))), None, Returned(events[n].err))
  {
    RecordFrom(s, events, clock, closing, 0)
  }

  /** On every stream, only the receive that ends the loop can be appended, so
      a session keeps the registry's entries and adds at most one person after them. */
  lemma {:induction false} RecordFromAppendsAtMostOne(s: Server, events: seq<Recv>, clock: nat -> Timestamp, closing: SendOutcome, i: nat)
    requires i <= |events|
    ensures s.savedPersons <= RecordFrom(s, events, clock, closing, i).server.savedPersons
    ensures |RecordFrom(s, events, clock, closing, i).server.savedPersons| <= |s.savedPersons| + 1
    decreases |events| - i
  {
    if i < |events| && events[i].err.None? {
      assert s.(savedPersons := s.savedPersons + GuardAppend(events[i], clock(i))) == s;
      RecordFromAppendsAtMostOne(s, events, clock, closing, i + 1);
    }
  }

  lemma RecordPersonsAppendsAtMostOne(s: Server, events: seq<Recv>, clock: nat -> Timestamp, closing: SendOutcome)
    ensures s.savedPersons <= RecordPersons(s, events, clock, closing).server.savedPersons
    ensures |RecordPersons(s, events, clock, closing).server.savedPersons| <= |s.savedPersons| + 1
  {
    RecordFromAppendsAtMostOne(s, events, clock, closing, 0);
  }

  /** Every finite stream either never ends the loop or ends it at a first receive. */
  lemma {:induction false} LoopEndsOrBlocks(events: seq<Recv>)
    ensures (forall j :: 0 <= j < |events| ==> events[j].err.None?) || exists n :: EndsAt(events, n)
  {
    if |events| > 0 {
      var init := events[..|events| - 1];
      LoopEndsOrBlocks(init);
      if n :| EndsAt(init, n) {
        assert EndsAt(events, n);
      } else if events[|events| - 1].err.Some? {
        assert forall j :: 0 <= j < |events| - 1 ==> init[j] == events[j];
        assert EndsAt(events, |events| - 1);
      } else {
        assert forall j :: 0 <= j < |events| - 1 ==> init[j] == events[j];
      }
    }
  }

  /** The session completed: the loop ended on `io.EOF`. */
  ghost predicate Completes(events: seq<Recv>)
  {
    exists n :: EndsAt(events, n) && events[n].err == Some(EOF)
  }

  /** The book grows by exactly the synthetic person when the session
      completes, and is untouched otherwise. */
  lemma RecordPersonsGrowsBook(s: Server, events: seq<Recv>, clock: nat -> Timestamp, closing: SendOutcome)
    ensures RecordPersons(s, events, clock, closing).server.book.people ==
            s.book.people + (if Completes(events) then [Synthetic] else [])
  {
    LoopEndsOrBlocks(events);
    if n :| EndsAt(events, n) {
      if !Completes(events) {
        assert events[n].err.value.Failure?;
      }
    }
  }

  /** On a stream the generated gRPC `Recv` can produce, the guard never fires
      and the registry is unchanged by the session. */
  lemma RecordPersonsKeepsRegistry(s: Server, events: seq<Recv>, clock: nat -> Timestamp, closing: SendOutcome)
    requires WellBehaved(events)
    ensures RecordPersons(s, events, clock, closing).server.savedPersons == s.savedPersons
  {
    LoopEndsOrBlocks(events);
    if n :| EndsAt(events, n) {
      assert WellFormed(events[n]);
      assert GuardAppend(events[n], clock(n)) == [];
    }
  }

  /** N messages then end-of-input: the registry is unchanged, the book gains
      the synthetic person and is sent back (N may be zero). */
  lemma RecordPersonsCompletes(s: Server, ps: seq<Person>, tail: seq<Recv>, clock: nat -> Timestamp)
    ensures RecordPersons(s, Messages(ps) + [Closed] + tail, clock, Delivered) ==
            Recorded(Server(s.savedPersons, AddressBook(s.book.people + [Synthetic])),
                     Some(AddressBook(s.book.people + [Synthetic])), Returned(None))
  {
    var events := Messages(ps) + [Closed] + tail;
    assert forall j :: 0 <= j < |ps| ==> events[j] == Messages(ps)[j];
    assert WellFormed(events[|ps|]);
    assert EndsAt(events, |ps|);
  }

  /** A read failure after N messages returns that error, sends no book and
      changes nothing. */
  lemma RecordPersonsBroken(s: Server, ps: seq<Person>, message: string, tail: seq<Recv>, clock: nat -> Timestamp, closing: SendOutcome)
    ensures RecordPersons(s, Messages(ps) + [Broken(message)] + tail, clock, closing) ==
            Recorded(s, None, Returned(Some(Failure(message))))
  {
    var events := Messages(ps) + [Broken(message)] + tail;
    assert forall j :: 0 <= j < |ps| ==> events[j] == Messages(ps)[j];
    assert EndsAt(events, |ps|);
  }

  /** The guard fires on a pair gRPC never returns: a person together with an
      error. After N messages, such a receive ends the loop and that person,
      stamped with the clock at that receive, is appended. */
  lemma RecordPersonsGuardAppends(s: Server, ps: seq<Person>, p: Person, e: Error, tail: seq<Recv>, clock: nat -> Timestamp, closing: SendOutcome)
    ensures RecordPersons(s, Messages(ps) + [Recv(Some(p), Some(e))] + tail, clock, closing).server.savedPersons ==
            s.savedPersons + [Stamp(p, clock(|ps|))]
  {
    var last := Recv(Some(p), Some(e));
    EndsAfterMessages(ps, last, tail);
    AppendAt(s, Messages(ps) + [last] + tail, clock, closing, |ps|);
  }

  /** A receive with an error after N messages is the one that ends the loop. */
  lemma EndsAfterMessages(ps: seq<Person>, last: Recv, tail: seq<Recv>)
    requires last.err.Some?
    ensures EndsAt(Messages(ps) + [last] + tail, |ps|)
    ensures (Messages(ps) + [last] + tail)[|ps|] == last
  {
    var events := Messages(ps) + [last] + tail;
    assert forall j :: 0 <= j < |ps| ==> events[j] == Messages(ps)[j];
  }

  /** The registry after a session whose loop ends at receive `n`. */
  lemma AppendAt(s: Server, events: seq<Recv>, clock: nat -> Timestamp, closing: SendOutcome, n: nat)
    requires EndsAt(events, n)
    ensures RecordPersons(s, events, clock, closing).server.savedPersons == s.savedPersons + GuardAppend(events[n], clock(n))
  {
  }

  /** Conversely, the registry grows only when the receive that ends the loop
      carries both a person and an error, and then by that person, stamped. */
  lemma RecordPersonsAppendNeedsErrorAndPerson(s: Server, events: seq<Recv>, clock: nat -> Timestamp, closing: SendOutcome)
    ensures RecordPersons(s, events, clock, closing).server.savedPersons != s.savedPersons ==>
              exists n :: && EndsAt(events, n) && events[n].person.Some? && events[n].err.Some?
                          && RecordPersons(s, events, clock, closing).server.savedPersons ==
                             s.savedPersons + [Stamp(events[n].person.value, clock(n))]
  {
    LoopEndsOrBlocks(events);
    if n :| EndsAt(events, n) {
      if GuardAppend(events[n], clock(n)) != [] {
        assert events[n].person.Some? && events[n].err.Some?;
      }
    }
  }
}
