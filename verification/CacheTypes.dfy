/** Values shared by the other modules. */
module CacheTypes {

  datatype Option<+T> = None | Some(value: T)

  /** A cache key: the 128-bit digest `low`/`high` and the fields beside it. The first level
      compares the digest only, the second level compares every field. */
  datatype Key = Key(low: nat, high: nat, objectKey: nat, relationId: nat, pad: nat)

  /** No element occurs twice. */
  ghost predicate NoDup(l: seq<nat>) {
    forall i, j :: 0 <= i < j < |l| ==> l[i] != l[j]
  }

  const GENERATIONS: nat := 0x1_0000
  const U64: nat := 0x1_0000_0000_0000_0000
}
