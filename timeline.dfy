/**
 * The store's `orderBy: { createdAt: 'desc' }` and `take` as functions on
 * sequences: a newest-first ordering by a timestamp key, and taking a prefix.
 * Entries with equal timestamps may come in any order, as in the store.
 */
module Timeline {
  import opened Time

  /** `s` lists its entries newest first according to `at` */
  ghost predicate NewestFirst<T>(s: seq<T>, at: T -> Instant) {
    forall i, j :: 0 <= i < j < |s| ==> AtOrBefore(at(s[j]), at(s[i]))
  }

  /** Putting an entry no earlier than all of `s` in front keeps `s` newest first */
  lemma ConsNewest<T>(h: T, s: seq<T>, at: T -> Instant)
    requires NewestFirst(s, at)
    requires forall j :: 0 <= j < |s| ==> AtOrBefore(at(s[j]), at(h))
    ensures NewestFirst([h] + s, at)
  {
    var r := [h] + s;
    forall i, j | 0 <= i < j < |r| ensures AtOrBefore(at(r[j]), at(r[i])) {
      assert r[j] == s[j - 1];
      if i > 0 {
        assert r[i] == s[i - 1];
      }
    }
  }

  /** Inserts `x` into a newest-first sequence, keeping it newest first */
  function InsertNewest<T>(x: T, s: seq<T>, at: T -> Instant): (r: seq<T>)
    requires NewestFirst(s, at)
    ensures NewestFirst(r, at)
    ensures multiset(r) == multiset(s) + multiset{x}
    ensures |r| == |s| + 1
  {
    if s == [] then [x]
    else if AtOrBefore(at(s[0]), at(x)) then
      HeadIsNewest(x, s, at);
      ConsNewest(x, s, at);
      [x] + s
    else
      var rest := InsertNewest(x, s[1..], at);
      InsertBelowHead(x, s, rest, at);
      ConsNewest(s[0], rest, at);
      assert s == [s[0]] + s[1..];
      [s[0]] + rest
  }

  /** An entry no earlier than the head of a newest-first sequence is no earlier than all of it */
  lemma HeadIsNewest<T>(x: T, s: seq<T>, at: T -> Instant)
    requires NewestFirst(s, at) && s != [] && AtOrBefore(at(s[0]), at(x))
    ensures forall j :: 0 <= j < |s| ==> AtOrBefore(at(s[j]), at(x))
  {
    forall j | 0 <= j < |s| ensures AtOrBefore(at(s[j]), at(x)) {
      if j > 0 { AtOrBeforeTransitive(at(s[j]), at(s[0]), at(x)); }
    }
  }

  /** Inserting below the head of a newest-first sequence leaves the head no earlier than the rest */
  lemma InsertBelowHead<T>(x: T, s: seq<T>, rest: seq<T>, at: T -> Instant)
    requires NewestFirst(s, at) && s != [] && !AtOrBefore(at(s[0]), at(x))
    requires multiset(rest) == multiset(s[1..]) + multiset{x}
    ensures forall j :: 0 <= j < |rest| ==> AtOrBefore(at(rest[j]), at(s[0]))
  {
    forall j | 0 <= j < |rest| ensures AtOrBefore(at(rest[j]), at(s[0])) {
      var e := rest[j];
      assert e in multiset(rest);
      if e == x {
        AtOrBeforeTotal(at(x), at(s[0]));
      } else {
        assert e in multiset(s[1..]);
        var k :| 0 <= k < |s[1..]| && s[1..][k] == e;
        assert s[k + 1] == e;
      }
    }
  }

  /** Orders a sequence newest first */
  function SortNewest<T>(s: seq<T>, at: T -> Instant): (r: seq<T>)
    ensures NewestFirst(r, at)
    ensures multiset(r) == multiset(s)
    ensures |r| == |s|
  {
    if s == [] then []
    else
      assert s == [s[0]] + s[1..];
      InsertNewest(s[0], SortNewest(s[1..], at), at)
  }

  function Min(a: int, b: int): int { if a <= b then a else b }

  /**
   * The newest `n` entries of `s` (all of them if there are fewer): they are
   * newest first, come from `s`, and every entry strictly later than the
   * last one returned is returned as often as `s` holds it, so no copy of
   * such an entry is left out.
   */
  function TakeNewest<T>(s: seq<T>, n: nat, at: T -> Instant): (r: seq<T>)
    ensures NewestFirst(r, at)
    ensures |r| == Min(n, |s|)
    ensures multiset(r) <= multiset(s)
    ensures |s| <= n ==> multiset(r) == multiset(s)
    ensures r != [] ==> forall x :: x in s && !AtOrBefore(at(x), at(r[|r| - 1])) ==> multiset(r)[x] == multiset(s)[x]
  {
    var sorted := SortNewest(s, at);
    var k := Min(n, |s|);
    PrefixOfNewest(sorted, k, at);
    assert k == |s| ==> sorted[..k] == sorted;
    sorted[..k]
  }

  /**
   * Two equal entries and a strictly older one: the newest two are both
   * copies of the equal entry, never one copy and the older entry.
   */
  lemma TakeNewestKeepsCopies<T>(x: T, y: T, at: T -> Instant)
    requires !AtOrBefore(at(x), at(y))
    ensures TakeNewest([x, x, y], 2, at) == [x, x]
  {
    var r := TakeNewest([x, x, y], 2, at);
    assert multiset([x, x, y])[x] == 2;
    assert r[0] in multiset([x, x, y]) && r[1] in multiset([x, x, y]);
    assert AtOrBefore(at(r[1]), at(r[0]));
    AtOrBeforeTotal(at(x), at(y));
    assert r[1] == x;
    assert r[0] == x;
  }

  /** A prefix of a newest-first sequence holds every copy of each entry strictly later than its last one */
  lemma PrefixOfNewest<T>(sorted: seq<T>, k: nat, at: T -> Instant)
    requires NewestFirst(sorted, at) && k <= |sorted|
    ensures NewestFirst(sorted[..k], at)
    ensures multiset(sorted[..k]) <= multiset(sorted)
    ensures 0 < k ==> forall x :: !AtOrBefore(at(x), at(sorted[k - 1])) ==> multiset(sorted[..k])[x] == multiset(sorted)[x]
  {
    assert sorted == sorted[..k] + sorted[k..];
    assert multiset(sorted) == multiset(sorted[..k]) + multiset(sorted[k..]);
    var prefix := sorted[..k];
    forall i, j | 0 <= i < j < |prefix| ensures AtOrBefore(at(prefix[j]), at(prefix[i])) {
      assert prefix[i] == sorted[i] && prefix[j] == sorted[j];
    }
    if 0 < k {
      forall x | !AtOrBefore(at(x), at(sorted[k - 1]))
        ensures multiset(sorted[..k])[x] == multiset(sorted)[x]
      {
        // the suffix after the prefix holds no entry later than sorted[k - 1]
        assert x !in sorted[k..] by {
          forall j | 0 <= j < |sorted[k..]| ensures sorted[k..][j] != x {
            assert sorted[k..][j] == sorted[k + j];
            assert AtOrBefore(at(sorted[k + j]), at(sorted[k - 1]));
          }
        }
      }
    }
  }
}
