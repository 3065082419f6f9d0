# Person guide server, modelled in Dafny

This project models `PersonGuideServer`, the gRPC service of the person guide
example. The server keeps a volatile registry of persons (`savedPersons`) and one
address book, and answers four RPCs:

- **GetPhone** (unary) finds the first registry person with the requested id and returns that person's first phone.
- **ListPersons** (server streaming) sends the whole registry in order. It ignores the address it is given.
- **RecordPersons** (client streaming) reads persons until the peer closes its side. On end-of-input it appends one synthetic person (id 11) to the address book and sends the book back.
- **RoutePhones** (bidirectional) answers every inbound person with that person's phone numbers, one message per phone.

Each handler is a pure function. Its inputs are the server state, a finite list of
receive results and a list of send outcomes. Its outputs are the new state, the
messages sent and how the handler ended.

- A receive result is the `(person, err)` pair that `stream.Recv()` returns in Go (`Streams.Recv`). Pairs the generated gRPC code can produce (exactly one of the two is non-nil) are called well formed.
- A send outcome says whether send number *k* of the session went through. Sends past the listed outcomes are delivered.
- A handler ends in one of three ways (`Streams.Status`): it returns an error or nil; it is `Blocked` in `Recv` because the listed receives ran out; or it `Panicked` (a Go run-time panic).

Modules follow the server's structure:

| file | module | contents |
|---|---|---|
| proto.dfy | `Proto` | messages: `Person`, `PhoneNumber`, `AddressBook`, `Adress`, `Error` |
| streams.dfy | `Streams` | receive pairs, send outcomes, the send loop, Go's `make`/`copy` |
| registry.dfy | `Registry` | server state and the seed data of `loadFeatures`/`newServer` |
| lookup.dfy | `Lookup` | GetPhone |
| enumerate.dfy | `Enumerate` | ListPersons |
| collect.dfy | `Collect` | RecordPersons |
| exchange.dfy | `Exchange` | RoutePhones |
| sessions.dfy | `Sessions` | a dispatcher over the four calls, and runs of sessions served one after another |

Two behaviours of the code stand out in the model:

- **GetPhone panics on a phoneless match.** It indexes `GetPhones()[0]` without a check. If the first person with a matching id has no phones, the result is an index-out-of-range panic, not the "Not found person" error (`Lookup.GetPhone`, `Unary.Panic`).
- **RecordPersons never appends on real streams.** Its append guard is `err != nil && person != nil`. Every non-nil error ends the receive loop in the same iteration, so only the receive that ends the session can trip the guard (`Collect.RecordPersonsAppendsAtMostOne`). On a well-formed stream it never fires (`Collect.RecordPersonsKeepsRegistry`). So when every stream is well formed, no run of sessions changes the registry, and ListPersons always returns the seed data (`Sessions.FreshServerListsSeed`).

## Where the code and its own comments differ

The model follows the code in each case:

- The field comment at server/server.go:37 calls `savedPersons` read-only after initialisation. Line 76 still appends to it, when a receive carries both a person and an error (`Collect.RecordPersonsGuardAppends`). Streams from the generated gRPC code never carry such a pair, so on them the comment holds (`Collect.RecordPersonsKeepsRegistry`).
- The comment at server/server.go:43 says GetPhone returns the phone of the given person. When the first matching person has no phones, line 47 panics instead. `grpc.NewServer` is given no recovery interceptor (server/server.go:154-156), so that panic ends the whole process, and the in-memory registry and book with it (`Sessions.Run`, `Sessions.RunEndsAtPanic`). The same holds for the nil dereference at line 111 in RoutePhones.
- The field comment at server/server.go:39 says `mu` protects the address book. RecordPersons appends to the book at line 87, and to `savedPersons` at line 76, without taking `mu`. Two sessions that reach EOF at the same time can therefore lose one of the two synthetic appends. `Sessions.RunAppendOnly`, `Sessions.RunGrowsBook` and `Sessions.RunKeepsRegistry` are about the sequential runs the model serves, not about interleaved sessions.

## Model

| member | source | states |
|---|---|---|
| Registry.NewServer | server/server.go:124-134 | a fresh server holds the ten example persons in both the registry and the book: ids 1 to 10 in order, each with the shared three-phone list and no timestamp |
| Lookup.Find | server/server.go:45-48 | the range scan yields the index of the first person whose id matches, or nothing when no person has that id |
| Lookup.GetPhone | server/server.go:44-52 | the reply is the first phone of the first person with the requested id. With no such person it is the empty phone plus the "Not found person" error, and only then. A first match without phones panics (index out of range) |
| Lookup.GetPhoneIgnoresLaterEntries | server/server.go:45-48 | replacing every registry entry after the first match does not change the reply |
| Lookup.SeedLookup | server/server.go:165-182 | on a fresh server every id from 1 to 10 yields phone "1234" of kind HOME, with no error |
| Lookup.SeedMiss | server/server.go:50-51 | on a fresh server any other id yields the empty phone and the not-found error |
| Streams.SendEach | server/server.go:57-60 | a send loop delivers all items, in order, with no error exactly when all its sends succeed. Otherwise it has sent the prefix before the first failed send and returns that send's error |
| Streams.SendEachStopsAtFirstFailure | server/server.go:57-60 | if send number m is the first to fail, the loop has sent exactly the first m items |
| Streams.Make | server/server.go:111 | `make` yields n zero values |
| Streams.Copy | server/server.go:112 | `copy` overwrites the first min(len(dst), len(src)) elements of dst with those of src and keeps dst's length |
| Streams.CopyIntoFresh | server/server.go:111-112 | copying into a fresh slice of the source's length yields the source |
| Exchange.Snapshot | server/server.go:107-113 | the copy taken under the lock equals the inbound person's phone list |
| Enumerate.ListPersons | server/server.go:55-63 | when every send succeeds, the sent sequence equals the registry, in order, and the result is nil. If send k is the first to fail, exactly the first k persons were sent and that send's error is returned |
| Enumerate.ListPersonsIgnoresAdress | server/server.go:55-57 | two different addresses give identical output |
| Collect.RecordFrom | server/server.go:69-93 | the receive loop from a given receive on: see RecordPersons, with receives counted from that point |
| Collect.RecordPersons | server/server.go:68-94 | the loop ends at the first receive with a non-nil error. The registry gains at most that receive's person, stamped with the clock. On EOF the book gains the synthetic person; the book is sent back when the closing send succeeds, and otherwise that send's error is returned. Any other error is returned with no book and the book unchanged. A stream that never ends changes nothing |
| Collect.RecordPersonsAppendsAtMostOne | server/server.go:71-77 | any session keeps the registry as a prefix and adds at most one person |
| Collect.RecordPersonsKeepsRegistry | server/server.go:71-77 | on a well-formed stream the append guard never fires and the registry is unchanged |
| Collect.RecordPersonsGuardAppends | server/server.go:71-77 | after N messages, a receive carrying both a person and an error ends the loop and appends that person, its timestamp overwritten by the clock at that receive |
| Collect.RecordPersonsAppendNeedsErrorAndPerson | server/server.go:72-77 | conversely, the registry changes only when the receive that ends the loop carries both a person and an error, and then by exactly that person, stamped |
| Collect.RecordPersonsGrowsBook | server/server.go:78-88 | the book grows by exactly the synthetic person when the session reaches EOF, and is untouched otherwise |
| Collect.RecordPersonsCompletes | server/server.go:78-88 | N messages (N may be zero) then EOF: the registry is unchanged, the book gains the synthetic person and is returned, and the result is nil |
| Collect.RecordPersonsBroken | server/server.go:90-92 | N messages then a read failure: that error is returned, no book is sent, and the state is unchanged |
| Exchange.RouteFromDrains | server/server.go:115-119 | when its sends succeed, the copied list goes out whole, in order, and the loop moves on to the next receive |
| Exchange.RouteFromDrainFails | server/server.go:115-118 | a failed send while the copied list goes out ends the session with that send's error, after the phones sent before it |
| Exchange.RouteFromMessages | server/server.go:99-120 | while sends succeed, a run of inbound persons is answered with the concatenation of their phone lists, in arrival order |
| Exchange.RouteFromSendFails | server/server.go:115-118 | if send m is the first to fail, exactly the first m phones of the concatenation were sent and that error is returned |
| Exchange.InboundSplits | server/server.go:99-111 | every stream is the run of plain messages it starts with, followed by a receive that is not a plain message, or by nothing |
| Exchange.RoutePhones | server/server.go:98-121 | the inbound persons are answered with all their phones in arrival order. When those sends are all delivered, the session then ends on the first receive that is not a plain message (nil on EOF, the error as is, a panic on a pair with neither person nor error) or is still waiting in Recv. Otherwise the first failed send ends it with that send's error, after the phones before it |
| Exchange.RoutePhonesCompletes | server/server.go:99-103 | messages then EOF, every send succeeding: the output is the concatenation of the inbound phone lists and the result is nil |
| Exchange.RoutePhonesBroken | server/server.go:104-106 | messages then a read failure: their phones are sent and then the read error is returned |
| Exchange.RoutePhonesStops | server/server.go:100-112 | after the messages, the first receive that is not a plain message ends the session: EOF returns nil, any other error is returned as is, and a pair with neither person nor error panics when `person.Phones` is read |
| Exchange.RoutePhonesWaits | server/server.go:99-100 | messages without EOF: all their phones are sent and the handler keeps waiting in Recv |
| Exchange.RoutePhonesSendFails | server/server.go:115-118 | a failed send ends the session at once with that error, whatever the stream holds afterwards |
| Sessions.Serve | server/server.go:37-40 | GetPhone, ListPersons and RoutePhones leave the state unchanged; RecordPersons only appends to the registry and to the book |
| Sessions.RunAppendOnly | server/server.go:76-87 | over any run of sessions, the registry and the book keep their earlier entries as a prefix |
| Sessions.RunGrowsBook | server/server.go:87 | after any run, the book is its start plus one synthetic person per RecordPersons session that reached EOF before the process died |
| Sessions.RunEndsAtPanic | server/server.go:154-156 | a call whose handler panics (the index at line 47, the nil dereference at line 111) ends the process, since no recovery interceptor is installed: no later call is served and no later session completes |
| Sessions.RunKeepsRegistry | server/server.go:71-77 | when every RecordPersons stream is well formed, no run changes the registry |
| Sessions.ListPersonsStable | server/server.go:55-63 | under that condition, ListPersons gives the same output before and after any run, whatever the addresses |
| Sessions.FreshServerListsSeed | server/server.go:124-128 | on a fresh server, after any run of well-formed sessions, a fully delivered ListPersons sends exactly the ten example persons |
| Sessions.FreshServerGetPhoneAnswers | server/server.go:44-51 | on a fresh server, after any run of well-formed sessions, GetPhone never panics: the registry is still the seed and every seed person has phones |

## Left out

- Process bootstrap (`main`, flag parsing, `net.Listen`, TLS credentials, `grpc.NewServer`/`Serve`): this is I/O and configuration, not handler logic.
- Concurrency: the model serves sessions one after another, while the server runs each call on its own goroutine (`grpcServer.Serve`, server/server.go:158). The `sync.Mutex` around the copy in RoutePhones is therefore not modelled, only the copy's result. Whether concurrent RoutePhones sessions interleave their sends or deadlock is not modelled, and neither are lost appends when RecordPersons sessions run at the same time (see the comments section above).
- `time.Now()`/`timestamppb.New`: a clock function gives the timestamp of receive number i. Whether timestamps are no earlier than the session start is not modelled.
- `fmt.Println` logging and protobuf wire encoding.
- The personguide proto file is not part of this model. The zero phone kind is taken to be MOBILE, the first kind declared. Person ids are unbounded integers; they are only ever compared for equality, so their width does not matter.
- The `addressbook` map: only the book under key "book", index 0, is modelled. `loadFeatures` always creates it, so the missing-key panic cannot occur.
- Slice aliasing between `exampleData`, `savedPersons` and the book's `People`: these are independent immutable sequences.
- Nil request pointers (a nil person passed to GetPhone) are not modelled. gRPC never delivers them.
- Streams are finite: a handler that runs out of listed receives ends in `Blocked`, not in an endless wait.
- client/client.go: client plumbing with no logic of its own.
- Sessions.Run: the function modelling the server's lifetime (calls served in order, the process dying at the first panic) carries no contract of its own. Its behaviour is stated by `Sessions.RunAppendOnly`, `Sessions.RunGrowsBook`, `Sessions.RunKeepsRegistry` and `Sessions.RunEndsAtPanic`.
- Exchange.RouteFrom: the step function behind RoutePhones carries no contract of its own. Its behaviour is stated by the Exchange lemmas about it and by the contract of `Exchange.RoutePhones`.
- A process that dies on a panic is not restarted: a run ends there, and what a restarted server would hold (a fresh seed) is not modelled as part of the run.
