/** Shared data types. */
module Common {
  datatype Option<+T> = None | Some(value: T)

  type Byte = b: int | 0 <= b < 256

  /** What was read so far, before what the rest gives. */
  function Prepended<T>(out: seq<T>, r: Option<seq<T>>): Option<seq<T>> {
    match r
    case None => None
    case Some(rest) => Some(out + rest)
  }

  lemma PrependedOn<T>(out: seq<T>, x: T, r: Option<seq<T>>)
    ensures Prepended(out, Prepended([x], r)) == Prepended(out + [x], r)
    ensures Prepended([], r) == r
  {
    if r.Some? {
      assert out + ([x] + r.value) == out + [x] + r.value;
      assert [] + r.value == r.value;
    }
  }
}
