/** A value that may be absent, where the source has a nil pointer or a `found` flag. */
module Options {

  datatype Option<T> = None | Some(value: T)

  /** One text after the other, when both are there. */
  function Concat(a: Option<string>, b: Option<string>): Option<string> {
    if a.None? || b.None? then None else Some(a.value + b.value)
  }

  lemma ConcatAssoc(a: Option<string>, b: Option<string>, c: Option<string>)
    ensures Concat(a, Concat(b, c)) == Concat(Concat(a, b), c)
  {
    if a.Some? && b.Some? && c.Some? {
      assert a.value + (b.value + c.value) == a.value + b.value + c.value;
    }
  }
}
