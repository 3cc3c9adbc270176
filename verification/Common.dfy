/** Datatypes shared by the models. */
module Common {
  /** Go's pointer-or-nil and value-or-error results. */
  datatype Option<+T> = None | Some(value: T)

  datatype Result<+T, +E> = Ok(value: T) | Err(error: E)

  /** A file's or an object's contents; a byte is a char. */
  type Bytes = string

  /** The parts one after the other. */
  ghost function Flatten(parts: seq<string>): string {
    if parts == [] then "" else parts[0] + Flatten(parts[1..])
  }

  lemma {:induction false} FlattenMore(parts: seq<string>, part: string)
    ensures Flatten(parts + [part]) == Flatten(parts) + part
  {
    if parts == [] {
      assert Flatten([part]) == part + Flatten([]);
    } else {
      FlattenMore(parts[1..], part);
      assert (parts + [part])[1..] == parts[1..] + [part];
    }
  }

  /** The parts with the given indices, in that order. */
  function Picked<T>(parts: seq<T>, order: seq<nat>): seq<T>
    requires forall k | k in order :: k < |parts|
  {
    seq(|order|, i requires 0 <= i < |order| => assert order[i] in order; parts[order[i]])
  }

  ghost predicate Distinct<T>(items: seq<T>) {
    forall i, j | 0 <= i < j < |items| :: items[i] != items[j]
  }
}
