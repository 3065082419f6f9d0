/** GetPhone: the unary lookup of a person's phone by id. */
module Lookup {
  import opened Proto
  import opened Registry

  /** `i` is the position of the first person in `ps` whose id is `id`. */
  ghost predicate IsFirstMatch(ps: seq<Person>, id: int, i: int)
  {
    && 0 <= i < |ps|
    && ps[i].id == id
    && forall j :: 0 <= j < i ==> ps[j].id != id
  }

  /** The `for _, p := range s.savedPersons` scan for a matching id. */
  function Find(ps: seq<Person>, id: int): (r: Option<nat>)
    ensures r.Some? ==> IsFirstMatch(ps, id, r.value)
    ensures r.None? ==> forall j :: 0 <= j < |ps| ==> ps[j].id != id
  {
    if |ps| == 0 then None
    else if ps[0].id == id then Some(0)
    else
      match Find(ps[1..], id)
      case None => None
      case Some(k) => Some(k + 1)
  }

  /** A unary reply: the `(value, err)` pair returned, or a run-time panic. */
  datatype Unary<T> = Return(value: T, err: Option<Error>) | Panic

  /** `GetPhone`: the first phone of the first registry entry with the
      requested id; only the request's id is read. */
  function GetPhone(s: Server, person: Person): (r: Unary<PhoneNumber>)
    ensures forall i :: IsFirstMatch(s.savedPersons, person.id, i) && |s.savedPersons[i].phones| > 0 ==>
              r == Return(s.savedPersons[i].phones[0], None)
    ensures forall i :: IsFirstMatch(s.savedPersons, person.id, i) && s.savedPersons[i].phones == [] ==>
              r == Panic
    ensures (forall j :: 0 <= j < |s.savedPersons| ==> s.savedPersons[j].id != person.id) <==>
              r == Return(EmptyPhone, Some(NotFound))
    ensures r.Return? && r.err.None? ==>
              exists i :: IsFirstMatch(s.savedPersons, person.id, i) && r.value == s.savedPersons[i].phones[0]
  {
    match Find(s.savedPersons, person.id)
    case None => Return(EmptyPhone, Some(NotFound))
    case Some(i) =>
      var phones := s.savedPersons[i].phones;
      if |phones| == 0 then Panic else Return(phones[0], None)
  }

  /** Entries after the first match are never consulted: replacing them
      leaves the reply unchanged. */
  lemma GetPhoneIgnoresLaterEntries(s: Server, person: Person, i: nat, later: seq<Person>)
    requires IsFirstMatch(s.savedPersons, person.id, i)
    ensures GetPhone(s.(savedPersons := s.savedPersons[..i + 1] + later), person) == GetPhone(s, person)
  {
    var ps := s.savedPersons[..i + 1] + later;
    assert IsFirstMatch(ps, person.id, i);
  }

  /** Looking up a seed id on a fresh server yields the first shared phone. */
  lemma SeedLookup(person: Person)
    requires 1 <= person.id <= 10
    ensures GetPhone(NewServer(), person) == Return(PhoneNumber("1234", HOME), None)
  {
    var ps := NewServer().savedPersons;
    assert IsFirstMatch(ps, person.id, person.id - 1);
  }

  /** Any other id on a fresh server is not found. */
  lemma SeedMiss(person: Person)
    requires person.id < 1 || 10 < person.id
    ensures GetPhone(NewServer(), person) == Return(EmptyPhone, Some(NotFound))
  {
  }
}
