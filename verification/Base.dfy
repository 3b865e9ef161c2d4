/** What every component of the model shares: optional values, the result
    codes of the C layer, and sequences without repetition. */
module Base {

  datatype Option<+T> = None | Some(value: T)

  /** The result codes of src/capi/uvcpp_c_common.h that the model needs.
      `Engine(rc)` is a code handed through from the C++ object underneath. */
  datatype Code =
    | Ok
    | InvalidArg
    | Stale
    | Exception
    | WrongState
    | NoMemory
    | NoConnection
    | Misuse
    | Engine(rc: int)

  /** An address.  The allocator may hand out again one that was given back. */
  type Addr = nat

  ghost predicate NoDup<T>(s: seq<T>) {
    forall i, j :: 0 <= i < j < |s| ==> s[i] != s[j]
  }
}
