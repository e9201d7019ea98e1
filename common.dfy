/** Small shared definitions. */
module Common {

  /** An optional value: the engine's input mailbox either holds one batch or is empty. */
  datatype Option<+T> = None | Some(value: T)

  /** Go's integer division, which truncates toward zero (Dafny's `/` is Euclidean). */
  function Quot(a: int, b: int): int
    requires b > 0
  {
    if a >= 0 then a / b else -((-a) / b)
  }

  /** A non-empty set of ids has an element to pick (used before each `:|` over a key set). */
  lemma NonEmptyHasElement(s: set<int>)
    requires s != {}
    ensures exists k :: k in s
  {
    if forall k :: k !in s {
      assert false;
    }
  }

  /** Replacing the first element of the unprocessed part of a list extends the processed part by one. */
  lemma SpliceAt<T>(done: seq<T>, all: seq<T>, i: int, q: T)
    requires |done| == i < |all|
    ensures (done + all[i..])[i := q] == (done + [q]) + all[i + 1..]
  {
  }
}
