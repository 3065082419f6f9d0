/** ListPersons: the server-streaming enumeration of the registry. */
module Enumerate {
  import opened Proto
  import opened Streams
  import opened Registry

  /** `ListPersons`: sends every registry entry in order, stopping at the first
      failed send and returning its error. The address is never read. */
  function ListPersons(s: Server, adress: Adress, sends: seq<SendOutcome>): (r: Delivery<Person>)
    ensures DeliversAll(sends, 0, |s.savedPersons|) <==> r == Delivery(s.savedPersons, None)
    ensures forall k :: 0 <= k < |s.savedPersons| && DeliversAll(sends, 0, k) && SendAt(sends, k).SendFailed? ==>
              r == Delivery(s.savedPersons[..k], Some(SendAt(sends, k).err))
  {
    SendEach(s.savedPersons, sends, 0)
  }

  /** Two different addresses yield identical output. */
  lemma ListPersonsIgnoresAdress(s: Server, a: Adress, b: Adress, sends: seq<SendOutcome>)
    ensures ListPersons(s, a, sends) == ListPersons(s, b, sends)
  {
  }
}
