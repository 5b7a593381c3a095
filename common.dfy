/** Shared vocabulary of the four services: optional values (Java's null),
    results (Java's exceptions), the faults the services raise, a few
    java.lang.String predicates, and the fresh-key choice the document store
    makes when it saves a document that has no id yet. */
module Common {

  /** A Java reference that may be null. */
  datatype Option<T> = None | Some(value: T) {
    function GetOr(default: T): (r: T)
      ensures Some? ==> r == value
      ensures None? ==> r == default
    {
      if Some? then value else default
    }
  }

  /** The outcome of a service call: a value, or the exception it throws. */
  datatype Result<T, E> = Success(value: T) | Failure(error: E)

  /** The HTTP statuses the services attach to a ResponseStatusException. */
  datatype HttpStatus = BadRequest | Unauthorized | Forbidden | NotFound

  /** The exceptions thrown by the modelled code. */
  datatype Fault =
    | RuntimeFault(message: string)                   // RuntimeException(message)
    | NullPointerFault                                // dereferencing null
    | IOFault(message: string)                        // IOException(message)
    | StatusFault(status: HttpStatus, reason: string) // ResponseStatusException(status, reason)

  /** String.startsWith */
  predicate StartsWith(s: string, prefix: string) {
    |prefix| <= |s| && s[..|prefix|] == prefix
  }

  /** String.endsWith */
  predicate EndsWith(s: string, suffix: string) {
    |suffix| <= |s| && s[|s| - |suffix|..] == suffix
  }

  /** String.contains */
  predicate Contains(s: string, part: string)
    decreases |s|
  {
    |part| <= |s| && (s[..|part|] == part || Contains(s[1..], part))
  }

  /** The id the store generates for a new document: any key not yet in use.
      This one is longer than every key in use. */
  method FreshKey<V>(store: map<string, V>) returns (key: string)
    ensures key !in store
  {
    var rest := store.Keys;
    var longest: nat := 0;
    while rest != {}
      invariant rest <= store.Keys
      invariant forall k :: k in store.Keys - rest ==> |k| <= longest
      decreases |rest|
    {
      var k :| k in rest;
      if |k| > longest {
        longest := |k|;
      }
      rest := rest - {k};
    }
    key := seq(longest + 1, _ => 'k');
    assert |key| > longest;
  }
}
