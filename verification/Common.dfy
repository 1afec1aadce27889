/** What several modules need: optional values, and prefixes and characters of sequences. */
module Common {

  datatype Option<+T> = None | Some(value: T)

  predicate StartsWith<T(==)>(s: seq<T>, prefix: seq<T>) { |prefix| <= |s| && s[..|prefix|] == prefix }

  predicate Free<T(==)>(s: seq<T>, x: T) { forall i | 0 <= i < |s| :: s[i] != x }
}
