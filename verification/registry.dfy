/** The server state and the fixed data it is seeded with at start-up. */
module Registry {
  import opened Proto

  /** `PersonGuideServer`: the person registry and the People list of the
      single address book kept under the key "book". */
  datatype Server = Server(savedPersons: seq<Person>, book: AddressBook)

  /** The phone list every example person shares. */
  const Phones: seq<PhoneNumber> :=
    [PhoneNumber("1234", HOME), PhoneNumber("4321", WORK), PhoneNumber("4312", MOBILE)]

  function Example(name: string, id: int, email: string): Person
  {
    Person(name, id, email, Phones, None)
  }

  const ExampleData: seq<Person> := [
    Example("Juan", 1, "juan@gmail.com"),
    Example("Gabriel", 2, "gabriel@gmail.com"),
    Example("Albert", 3, "albert@gmail.com"),
    Example("Mark", 4, "mark@gmail.com"),
    Example("Brian", 5, "brian@gmail.com"),
    Example("Kevin", 6, "kevin@gmail.com"),
    Example("Ryan", 7, "ryan@gmail.com"),
    Example("May", 8, "may@gmail.com"),
    Example("Rosario", 9, "rosario@gmail.com"),
    Example("Argentina", 10, "argentina@gmail.com")
  ]

  /** `newServer` followed by `loadFeatures`: both the registry and the book
      start as the ten example persons, ids 1 to 10 in order, each with the
      shared phone list and no timestamp. */
  function NewServer(): (s: Server)
    ensures s.savedPersons == s.book.people
    ensures |s.savedPersons| == 10
    ensures forall i :: 0 <= i < |s.savedPersons| ==>
              && s.savedPersons[i].id == i + 1
              && s.savedPersons[i].phones == Phones
              && s.savedPersons[i].lastUpdated == None
  {
    Server(ExampleData, AddressBook(ExampleData))
  }
}
