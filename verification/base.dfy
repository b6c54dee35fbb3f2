/** Shared vocabulary: optional values, bytes, and the facts about
    separator-joined strings that every cache key in the gateway relies on. */
module Base {

  /** A value that may be absent: Go's nil pointer, nil interface or a failed
      call whose error is only logged. */
  datatype Option<+T> = None | Some(value: T)

  newtype uint8 = x: int | 0 <= x < 256

  /** Go's []byte. A nil slice and an empty slice are both the empty sequence. */
  type Bytes = seq<uint8>

  /** Joins two strings with a one-character separator, as the
      `fmt.Sprintf("%s/%s", ...)` keys of the gateway do. */
  function Join(a: string, sep: char, b: string): (r: string)
    ensures |r| == |a| + 1 + |b|
    ensures r[..|a|] == a && r[|a|] == sep && r[|a| + 1..] == b
  {
    a + [sep] + b
  }

  /** When the left part never contains the separator, the join can be undone
      by cutting at the first separator. */
  lemma JoinInjectiveLeft(a1: string, b1: string, a2: string, b2: string, sep: char)
    requires sep !in a1 && sep !in a2
    requires Join(a1, sep, b1) == Join(a2, sep, b2)
    ensures a1 == a2 && b1 == b2
  {
  }

  /** When the right part never contains the separator, the join can be undone
      by cutting at the last separator. */
  lemma JoinInjectiveRight(a1: string, b1: string, a2: string, b2: string, sep: char)
    requires sep !in b1 && sep !in b2
    requires Join(a1, sep, b1) == Join(a2, sep, b2)
    ensures a1 == a2 && b1 == b2
  {
  }

  /** `order` lists every element of `keys` exactly once: one possible
      iteration order of a Go map with those keys. */
  predicate IsEnumeration<K>(order: seq<K>, keys: set<K>) {
    && |order| == |keys|
    && (forall i :: 0 <= i < |order| ==> order[i] in keys)
    && (forall k :: k in keys ==> k in order)
    && (forall i, j :: 0 <= i < j < |order| ==> order[i] != order[j])
  }
}
