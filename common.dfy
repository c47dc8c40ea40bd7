/** Shared building blocks of the session-state records. */
module Common {

  datatype Option<T> = None | Some(value: T)

  /** A price as shown on a listing or an order: the word "Free" or an amount in rupees. */
  datatype Price = Free | Rupees(amount: nat)

  /** Python's `list.pop(i)` for an index the list has: entry `i` is gone, the rest keep their order. */
  function RemoveAt<T>(s: seq<T>, i: nat): (r: seq<T>)
    requires i < |s|
    ensures |r| == |s| - 1
    ensures forall k :: 0 <= k < |r| ==> r[k] == if k < i then s[k] else s[k + 1]
  {
    s[..i] + s[i + 1..]
  }

  /** Popping entry `i` removes exactly that one entry. */
  lemma RemoveAtMultiset<T>(s: seq<T>, i: nat)
    requires i < |s|
    ensures multiset(RemoveAt(s, i)) + multiset{s[i]} == multiset(s)
  {
    assert s == s[..i] + [s[i]] + s[i + 1..];
  }
}
