/** What every part of the model shares. */
module Common {
  /** How many names a path may have, and how many directories may lie in each other. */
  const PATH_DEPTH := 16

  datatype Option<+T> = None | Some(value: T)

  lemma SubsetSize<T>(a: set<T>, b: set<T>)
    requires a <= b
    ensures |a| <= |b|
  {
    assert |b| == |a| + |b - a|;
  }
}
