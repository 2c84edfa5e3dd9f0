/** `ORDER BY major ASC, minor ASC LIMIT n`, over the keys of the rows a query selects. */
module OrderedScan {
  datatype Key = Key(major: int, minor: int)

  predicate Before(a: Key, b: Key) {
    a.major < b.major || (a.major == b.major && a.minor < b.minor)
  }

  lemma {:induction false} LeastExists(keys: set<Key>)
    requires keys != {}
    ensures exists k :: k in keys && forall j :: j in keys && j != k ==> Before(k, j)
  {
    var x :| x in keys;
    var rest := keys - {x};
    if rest == {} {
      assert keys == {x};
      assert x in keys && forall j :: j in keys && j != x ==> Before(x, j);
    } else {
      LeastExists(rest);
      var y :| y in rest && forall j :: j in rest && j != y ==> Before(y, j);
      var k := if Before(x, y) then x else y;
      forall j | j in keys && j != k ensures Before(k, j) {
        assert j == x || j in rest;
      }
      assert k in keys && forall j :: j in keys && j != k ==> Before(k, j);
    }
  }

  function Least(keys: set<Key>): (k: Key)
    requires keys != {}
    ensures k in keys && forall j :: j in keys && j != k ==> Before(k, j)
  {
    LeastExists(keys);
    var k :| k in keys && forall j :: j in keys && j != k ==> Before(k, j);
    k
  }

  ghost predicate Ascending(s: seq<Key>) {
    forall i, j :: 0 <= i < j < |s| ==> Before(s[i], s[j])
  }

  /** Every selected key once, in order. */
  function Sorted(keys: set<Key>): (s: seq<Key>)
    ensures |s| == |keys|
    ensures forall k :: k in s <==> k in keys
    ensures Ascending(s)
  {
    if keys == {} then []
    else
      var k := Least(keys);
      [k] + Sorted(keys - {k})
  }

  function Limited(keys: set<Key>, limit: nat): (s: seq<Key>)
    ensures s <= Sorted(keys)
    ensures |s| == if |keys| < limit then |keys| else limit
  {
    if |keys| < limit then Sorted(keys) else Sorted(keys)[..limit]
  }

  /** A key the limit cut off sorts after every key it kept. */
  lemma CutSortsLast(keys: set<Key>, limit: nat, k: Key)
    requires k in keys && k !in Limited(keys, limit)
    ensures |keys| > limit == |Limited(keys, limit)|
    ensures forall j :: j in Limited(keys, limit) ==> Before(j, k)
  {
    var s, kept := Sorted(keys), Limited(keys, limit);
    var n :| 0 <= n < |s| && s[n] == k;
    assert forall i :: 0 <= i < |kept| ==> kept[i] == s[i];
  }

  /** Equal sets of the same order give one list: `Sorted` is the only ascending listing. */
  lemma {:induction false} SortedUnique(keys: set<Key>, s: seq<Key>)
    requires Ascending(s)
    requires forall k :: k in s <==> k in keys
    ensures s == Sorted(keys)
  {
    if keys == {} {
      assert forall k :: k !in s;
    } else {
      var k := Least(keys);
      assert k in s;
      var n :| 0 <= n < |s| && s[n] == k;
      assert s[0] in keys;
      assert n > 0 ==> Before(s[0], s[n]);
      assert s[0] == k;
      var rest := s[1..];
      forall j ensures j in rest <==> j in keys - {k} {
        if j in rest {
          var m :| 0 <= m < |rest| && rest[m] == j;
          assert s[m + 1] == j;
          assert Before(s[0], s[m + 1]);
        }
        if j in keys - {k} {
          assert j in s;
          var m :| 0 <= m < |s| && s[m] == j;
          assert rest[m - 1] == j;
        }
      }
      SortedUnique(keys - {k}, rest);
      assert s == [k] + rest;
    }
  }

  function After(keys: set<Key>, k: Key): set<Key> { set j | j in keys && Before(k, j) }

  /** Continuing after the n-th key is skipping n keys: keyset pagination loses and repeats nothing. */
  lemma TailIsAfter(keys: set<Key>, n: nat)
    requires 1 <= n <= |keys|
    ensures Sorted(keys)[n..] == Sorted(After(keys, Sorted(keys)[n - 1]))
  {
    var s := Sorted(keys);
    var tail, k := s[n..], s[n - 1];
    forall j ensures j in tail <==> j in After(keys, k) {
      if j in tail {
        var i :| 0 <= i < |tail| && tail[i] == j;
        assert s[n + i] == j && Before(s[n - 1], s[n + i]);
        assert j in s;
      }
      if j in After(keys, k) {
        var i :| 0 <= i < |s| && s[i] == j;
        assert i < n - 1 ==> Before(s[i], s[n - 1]);
        assert i >= n ==> tail[i - n] == j;
      }
    }
    SortedUnique(After(keys, k), tail);
  }
}
