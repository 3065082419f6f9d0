/** The messages of the person guide protocol, as plain immutable values.
    Pointers to messages become values; a nil pointer becomes `None`. */
module Proto {

  datatype Option<+T> = None | Some(value: T)

  /** A protobuf `Timestamp`; the server only writes it, never inspects it. */
  datatype Timestamp = Timestamp(seconds: int, nanos: int)

  /** The phone kinds, in declaration order (the first one is the zero value). */
  datatype PhoneType = MOBILE | HOME | WORK

  datatype PhoneNumber = PhoneNumber(number: string, kind: PhoneType)

  /** The zero value `&pb.PhoneNumber{}` returned on a failed lookup. */
  const EmptyPhone: PhoneNumber := PhoneNumber("", MOBILE)

  /** A person record. `lastUpdated` is nil unless the server stamped it. */
  datatype Person = Person(
    name: string,
    id: int,
    email: string,
    phones: seq<PhoneNumber>,
    lastUpdated: Option<Timestamp>)

  datatype AddressBook = AddressBook(people: seq<Person>)

  /** The query of ListPersons; the server never looks at it. */
  datatype Adress = Adress(name: string)

  /** The Go error values the handlers receive or return: the sentinel `io.EOF`
      and every other error, identified by its message. */
  datatype Error = EOF | Failure(message: string)

  /** `errors.New("Not found person")`. */
  const NotFound: Error := Failure("Not found person")
}
