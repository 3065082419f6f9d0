/** The four handlers behind one dispatcher, and runs of sessions served one
    after another against the same server state. */
module Sessions {
  import opened Proto
  import opened Streams
  import opened Registry
  import opened Lookup
  import opened Enumerate
  import opened Collect
  import opened Exchange

  /** One RPC with everything its handler reads from the outside world. */
  datatype Call =
    | GetPhoneCall(person: Person)
    | ListPersonsCall(adress: Adress, sends: seq<SendOutcome>)
    | RecordPersonsCall(events: seq<Recv>, clock: nat -> Timestamp, closing: SendOutcome)
    | RoutePhonesCall(events: seq<Recv>, sends: seq<SendOutcome>)

  datatype Response =
    | PhoneReply(phone: Unary<PhoneNumber>)
    | PersonStream(listed: Delivery<Person>)
    | BookReply(book: Option<AddressBook>, status: Status)
    | PhoneStream(routed: Routed)

  /** Serves one call. Only RecordPersons writes the state, and then only by
      appending: the registry and the book only grow. */
  function Serve(s: Server, c: Call): (r: (Server, Response))
    ensures !c.RecordPersonsCall? ==> r.0 == s
    ensures s.savedPersons <= r.0.savedPersons
    ensures s.book.people <= r.0.book.people
  {
    match c
    case GetPhoneCall(person) => (s, PhoneReply(GetPhone(s, person)))
    case ListPersonsCall(adress, sends) => (s, PersonStream(ListPersons(s, adress, sends)))
    case RecordPersonsCall(events, clock, closing) =>
      RecordPersonsAppendsAtMostOne(s, events, clock, closing);
      RecordPersonsGrowsBook(s, events, clock, closing);
      var rec := RecordPersons(s, events, clock, closing);
      (rec.server, BookReply(rec.reply, rec.status))
    case RoutePhonesCall(events, sends) => (s, PhoneStream(RoutePhones(events, sends)))
  }

  /** The handler panicked. The server installs no recovery interceptor, so a
      panic in any handler ends the whole process. */
  predicate Panics(r: Response)
  {
    || (r.PhoneReply? && r.phone.Panic?)
    || (r.PhoneStream? && r.routed.status.Panicked?)
  }

  /** The state after serving `calls` in order. At the first call whose
      handler panics the process dies: no later call is served, and the state
      returned is what was in memory when it died. */
  function Run(s: Server, calls: seq<Call>): Server
    decreases |calls|
  {
    if |calls| == 0 then s
    else
      var r := Serve(s, calls[0]);
      if Panics(r.1) then r.0 else Run(r.0, calls[1..])
  }

  /** How many of the calls served before the process dies are RecordPersons
      sessions that reach end-of-input. */
  ghost function Completed(s: Server, calls: seq<Call>): nat
    decreases |calls|
  {
    if |calls| == 0 then 0
    else
      var r := Serve(s, calls[0]);
      var here := if calls[0].RecordPersonsCall? && Completes(calls[0].events) then 1 else 0;
      if Panics(r.1) then here else here + Completed(r.0, calls[1..])
  }

  /** Every RecordPersons stream among the calls is one gRPC can produce. */
  ghost predicate WellBehavedCalls(calls: seq<Call>)
  {
    forall i :: 0 <= i < |calls| && calls[i].RecordPersonsCall? ==> WellBehaved(calls[i].events)
  }

  /** The registry and the book are append-only over any run of sessions. */
  lemma {:induction false} RunAppendOnly(s: Server, calls: seq<Call>)
    ensures s.savedPersons <= Run(s, calls).savedPersons
    ensures s.book.people <= Run(s, calls).book.people
    decreases |calls|
  {
    if |calls| > 0 && !Panics(Serve(s, calls[0]).1) {
      RunAppendOnly(Serve(s, calls[0]).0, calls[1..]);
    }
  }

  /** Each completed RecordPersons session served before the process dies
      appends exactly one synthetic person to the book; nothing else touches it. */
  lemma {:induction false} RunGrowsBook(s: Server, calls: seq<Call>)
    ensures Run(s, calls).book.people == s.book.people + Make(Completed(s, calls), Synthetic)
    decreases |calls|
  {
    if |calls| > 0 {
      var c := calls[0];
      var r := Serve(s, c);
      var s1 := r.0;
      if c.RecordPersonsCall? {
        RecordPersonsGrowsBook(s, c.events, c.clock, c.closing);
      }
      if Panics(r.1) {
        assert s1.book.people == s.book.people + Make(Completed(s, calls), Synthetic);
      } else {
        RunGrowsBook(s1, calls[1..]);
        var n := Completed(s1, calls[1..]);
        if c.RecordPersonsCall? && Completes(c.events) {
          assert [Synthetic] + Make(n, Synthetic) == Make(n + 1, Synthetic);
        }
      }
    }
  }

  /** When every stream is well behaved, no run of sessions changes the registry. */
  lemma {:induction false} RunKeepsRegistry(s: Server, calls: seq<Call>)
    requires WellBehavedCalls(calls)
    ensures Run(s, calls).savedPersons == s.savedPersons
    decreases |calls|
  {
    if |calls| > 0 {
      var c := calls[0];
      if c.RecordPersonsCall? {
        RecordPersonsKeepsRegistry(s, c.events, c.clock, c.closing);
      }
      assert WellBehavedCalls(calls[1..]) by {
        forall i | 0 <= i < |calls| - 1 && calls[1..][i].RecordPersonsCall?
          ensures WellBehaved(calls[1..][i].events)
        {
          assert calls[1..][i] == calls[i + 1];
        }
      }
      if !Panics(Serve(s, c).1) {
        RunKeepsRegistry(Serve(s, c).0, calls[1..]);
      }
    }
  }

  /** Hence ListPersons answers the same before and after any such run, for
      any two addresses. */
  lemma ListPersonsStable(s: Server, calls: seq<Call>, a: Adress, b: Adress, sends: seq<SendOutcome>)
    requires WellBehavedCalls(calls)
    ensures ListPersons(Run(s, calls), a, sends) == ListPersons(s, b, sends)
  {
    RunKeepsRegistry(s, calls);
    ListPersonsIgnoresAdress(Run(s, calls), a, b, sends);
  }

  /** On a fresh server, after any run of well-behaved sessions, a fully
      delivered ListPersons streams exactly the ten example persons. */
  lemma FreshServerListsSeed(calls: seq<Call>, adress: Adress, sends: seq<SendOutcome>)
    requires WellBehavedCalls(calls)
    requires DeliversAll(sends, 0, 10)
    ensures ListPersons(Run(NewServer(), calls), adress, sends) == Delivery(ExampleData, None)
  {
    RunKeepsRegistry(NewServer(), calls);
  }

  /** A panicking call ends the process: the calls after it are never served,
      and the run ends with the state the panicking call left. */
  lemma RunEndsAtPanic(s: Server, c: Call, later: seq<Call>)
    requires Panics(Serve(s, c).1)
    ensures Run(s, [c] + later) == s
    ensures Completed(s, [c] + later) == 0
  {
    assert ([c] + later)[0] == c;
  }

  /** On a fresh server, after any run of well-behaved sessions, GetPhone
      cannot panic: the registry is still the seed, and every seed person has phones. */
  lemma FreshServerGetPhoneAnswers(calls: seq<Call>, person: Person)
    requires WellBehavedCalls(calls)
    ensures !GetPhone(Run(NewServer(), calls), person).Panic?
  {
    RunKeepsRegistry(NewServer(), calls);
    if 1 <= person.id <= 10 {
      SeedLookup(person);
    } else {
      SeedMiss(person);
    }
    assert GetPhone(Run(NewServer(), calls), person) == GetPhone(NewServer(), person);
  }
}
