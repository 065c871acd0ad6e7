/** What several modules need. */
module Common {
  datatype Option<+T> = None | Some(value: T)

  type byte = x: int | 0 <= x < 256
  type bytes = seq<byte>

  function Max(x: int, y: int): int {
    if x < y then y else x
  }

  lemma Reassociate<T>(a: seq<T>, b: seq<T>, c: seq<T>)
    ensures a + (b + c) == a + b + c
  {
  }

  /** The first element from position `from` on that `p` holds of, or the end. */
  function FirstWhere<T>(p: T -> bool, s: seq<T>, from: nat): (k: nat)
    requires from <= |s|
    ensures from <= k <= |s|
    ensures forall i :: from <= i < k ==> !p(s[i])
    ensures k < |s| ==> p(s[k])
    decreases |s| - from
  {
    if from == |s| || p(s[from]) then from else FirstWhere(p, s, from + 1)
  }

  lemma FirstWhereIs<T>(p: T -> bool, s: seq<T>, from: nat, k: nat)
    requires from <= k <= |s| && (k < |s| ==> p(s[k]))
    requires forall i :: from <= i < k ==> !p(s[i])
    ensures FirstWhere(p, s, from) == k
  {
  }
}
