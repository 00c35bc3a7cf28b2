/** An optional value, for the program's nullable columns and lookups. */
module Options {
  datatype Option<+T> = None | Some(value: T)
}

/** Facts about the sizes of finite sets. */
module Sets {
  lemma {:induction false} SubsetSize<T>(a: set<T>, b: set<T>)
    requires a <= b
    ensures |a| <= |b|
  {
    if x :| x in a {
      SubsetSize(a - {x}, b - {x});
    }
  }
}
