/**
 * Tables keyed by autoincrement ids, and the listing of their rows in
 * ascending id order (the order in which the store returns them when a
 * query gives no `orderBy`).
 */
module Tables {

  /** The rows whose ids are below `n`, in ascending id order */
  function Rows<V(!new)>(m: map<nat, V>, n: nat): (r: seq<V>)
    ensures forall v :: v in r <==> exists k :: 0 <= k < n && k in m && m[k] == v
    ensures |r| <= n
  {
    if n == 0 then []
    else Rows(m, n - 1) + (if n - 1 in m then [m[n - 1]] else [])
  }

  /** When each row records its own id, the listing is strictly ascending in that id */
  lemma {:induction false} RowsAscending<V(!new)>(m: map<nat, V>, n: nat, key: V -> nat)
    requires forall k :: k in m ==> key(m[k]) == k
    ensures forall i :: 0 <= i < |Rows(m, n)| ==> key(Rows(m, n)[i]) < n
    ensures forall i, j :: 0 <= i < j < |Rows(m, n)| ==> key(Rows(m, n)[i]) < key(Rows(m, n)[j])
  {
    if n > 0 {
      RowsAscending(m, n - 1, key);
    }
  }
}
