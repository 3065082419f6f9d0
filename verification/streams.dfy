/** The abstract stream a handler drives: a finite list of receive results and
    a list of send outcomes, plus the two Go builtins the handlers use on slices. */
module Streams {
  import opened Proto

  /** The `(person, err)` pair one call of `stream.Recv()` returns. */
  datatype Recv = Recv(person: Option<Person>, err: Option<Error>)

  function Message(p: Person): Recv { Recv(Some(p), None) }

  /** The peer closed its side: `(nil, io.EOF)`. */
  const Closed: Recv := Recv(None, Some(EOF))

  /** The transport failed: `(nil, err)` with `err != io.EOF`. */
  function Broken(message: string): Recv { Recv(None, Some(Failure(message))) }

  /** A pair the generated gRPC `Recv` can return: a person or an error, never both, never neither. */
  predicate WellFormed(ev: Recv)
  {
    ev.person.Some? != ev.err.Some?
  }

  ghost predicate WellBehaved(events: seq<Recv>)
  {
    forall i :: 0 <= i < |events| ==> WellFormed(events[i])
  }

  /** A well-behaved stream that delivers the given persons in order. */
  function Messages(ps: seq<Person>): (evs: seq<Recv>)
    ensures |evs| == |ps|
    ensures forall i :: 0 <= i < |ps| ==> evs[i] == Message(ps[i])
    ensures WellBehaved(evs)
  {
    if |ps| == 0 then [] else [Message(ps[0])] + Messages(ps[1..])
  }

  /** How a handler's run ended. `Blocked`: the listed receives ran out while the
      handler is still waiting in `Recv`. `Panicked`: a Go run-time panic. */
  datatype Status = Returned(err: Option<Error>) | Blocked | Panicked

  datatype SendOutcome = Delivered | SendFailed(err: Error)

  /** The outcome of the `k`-th send of a session. Sends past the listed
      outcomes are delivered. */
  function SendAt(sends: seq<SendOutcome>, k: nat): SendOutcome
  {
    if k < |sends| then sends[k] else Delivered
  }

  /** Sends number `k` to `k + n - 1` are all delivered. */
  ghost predicate DeliversAll(sends: seq<SendOutcome>, k: nat, n: nat)
  {
    forall j :: k <= j < k + n ==> SendAt(sends, j).Delivered?
  }

  /** What a send loop put on the wire, and the error that stopped it, if any. */
  datatype Delivery<T> = Delivery(sent: seq<T>, failure: Option<Error>)

  /** `for _, x := range items { if err := stream.Send(x); err != nil { return err } }`,
      the first send being send number `k` of the session. */
  function SendEach<T>(items: seq<T>, sends: seq<SendOutcome>, k: nat): (r: Delivery<T>)
    ensures r.failure.None? <==> DeliversAll(sends, k, |items|)
    ensures r.failure.None? ==> r.sent == items
    ensures r.failure.Some? ==>
              && |r.sent| < |items|
              && r.sent == items[..|r.sent|]
              && DeliversAll(sends, k, |r.sent|)
              && SendAt(sends, k + |r.sent|) == SendFailed(r.failure.value)
    decreases |items|
  {
    if |items| == 0 then Delivery([], None)
    else
      match SendAt(sends, k)
      case SendFailed(e) => Delivery([], Some(e))
      case Delivered =>
        var rest := SendEach(items[1..], sends, k + 1);
        Delivery([items[0]] + rest.sent, rest.failure)
  }

  /** The first failing send of a session decides where a send loop stops. */
  lemma SendEachStopsAtFirstFailure<T>(items: seq<T>, sends: seq<SendOutcome>, k: nat, m: nat)
    requires m < |items|
    requires DeliversAll(sends, k, m)
    requires SendAt(sends, k + m).SendFailed?
    ensures SendEach(items, sends, k) == Delivery(items[..m], Some(SendAt(sends, k + m).err))
  {
  }

  /** `make([]T, n)`: `n` zero values. */
  function Make<T>(n: nat, zero: T): (r: seq<T>)
    ensures |r| == n
    ensures forall i :: 0 <= i < n ==> r[i] == zero
  {
    if n == 0 then [] else [zero] + Make(n - 1, zero)
  }

  /** Go's builtin `copy(dst, src)`: the slice `dst` after the first
      `min(len(dst), len(src))` elements of `src` are written over it. */
  function Copy<T>(dst: seq<T>, src: seq<T>): (r: seq<T>)
    ensures |r| == |dst|
    ensures forall i :: 0 <= i < |dst| && i < |src| ==> r[i] == src[i]
    ensures forall i :: |src| <= i < |dst| ==> r[i] == dst[i]
    decreases |dst|
  {
    if |dst| == 0 || |src| == 0 then dst
    else [src[0]] + Copy(dst[1..], src[1..])
  }

  /** `rn := make([]T, len(src)); copy(rn, src)` yields exactly `src`. */
  lemma CopyIntoFresh<T>(src: seq<T>, zero: T)
    ensures Copy(Make(|src|, zero), src) == src
  {
  }
}
