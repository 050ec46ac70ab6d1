/** Failure-carrying values and the exceptions that can end a run of the loader. */
module Base {

  datatype Option<+T> = None | Some(value: T)

  datatype Result<+T, +E> = Success(value: T) | Failure(error: E)

  predicate Distinct<T(==)>(s: seq<T>) {
    forall i, j :: 0 <= i < j < |s| ==> s[i] != s[j]
  }

  /** A prefix grows by the next element. */
  lemma PrefixStep<T>(s: seq<T>, i: nat)
    requires i < |s|
    ensures s[..i] + [s[i]] == s[..i + 1]
  {
  }

  /** The Python exceptions the loader does not catch: each one ends the run. */
  datatype Error =
    | FileNotFound(path: string)   // FileNotFoundError from listdir, open or os.replace
    | NotEnoughValues(name: string) // ValueError: `key, value = name.rsplit('_', 1)` got one part
    | InvalidLiteral(text: string)  // ValueError: int(text) with a text that is no integer
    | NoneNotInt                    // TypeError: int(None), a spec row with a missing width
    | NotSubscriptable(what: string) // TypeError: `what` object is not subscriptable
}
