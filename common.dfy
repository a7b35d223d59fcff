/** Values shared by every part of the synchronisation engine: optional values,
    the errors the engine raises, and the outcome of a call to the remote API. */
module Common {

  datatype Option<+T> = None | Some(value: T)

  /** The errors raised by the engine, one constructor per message that reaches a
      caller: 'Database not initialized', 'Post not found in offline DB',
      'Post not found in IndexedDB', 'No offline data available.'; an IndexedDB `add`
      of a key already present, an aborted IndexedDB transaction, a put into a keyed
      store of a value that has no key at the key path (IndexedDB's DataError), and a
      failed remote call. The message 'Failed to receive valid ID from API.' has no
      constructor: `createPost` always catches it and falls back to the pending add. */
  datatype Error =
    | DatabaseNotInitialized
    | PostNotFoundOffline
    | PostNotFoundInIndexedDb
    | NoOfflineData
    | KeyAlreadyExists
    | TransactionAborted
    | KeyPathMissing
    | RemoteUnavailable

  datatype Result<+T> = Ok(value: T) | Err(error: Error)

  /** The outcome of an operation that yields no value. */
  datatype Outcome = Done | Fail(error: Error)

  /** What a remote call delivered: its response body, or a failure of any kind. */
  datatype Reply<+T> = Answered(value: T) | Unavailable

  function Min(a: int, b: int): int { if a < b then a else b }

  /** The elements of `s` that satisfy `keep`, in their order in `s` (Array.prototype.filter). */
  function Filter<T>(s: seq<T>, keep: T -> bool): (r: seq<T>)
    ensures |r| <= |s|
    ensures forall x | x in r :: x in s && keep(x)
    ensures forall i | 0 <= i < |s| && keep(s[i]) :: s[i] in r
  {
    if s == [] then []
    else if keep(s[0]) then [s[0]] + Filter(s[1..], keep)
    else Filter(s[1..], keep)
  }

  /** Filtering distributes over concatenation, so it keeps the relative order of what it keeps. */
  lemma {:induction false} FilterAppend<T>(a: seq<T>, b: seq<T>, keep: T -> bool)
    ensures Filter(a + b, keep) == Filter(a, keep) + Filter(b, keep)
  {
    if a != [] {
      assert (a + b)[1..] == a[1..] + b;
      FilterAppend(a[1..], b, keep);
    } else {
      assert a + b == b;
    }
  }
}
