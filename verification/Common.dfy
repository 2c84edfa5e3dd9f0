/** Small datatypes shared by the models. */
module Common {
  datatype Option<+T> = None | Some(value: T)

  function OrElse<T>(sent: Option<T>, stored: T): T { if sent.Some? then sent.value else stored }

  function Max(a: int, b: int): int { if a < b then b else a }

  function Min(a: int, b: int): int { if a < b then a else b }

  /** `slice(0, n)`: the first n characters, or all there are. */
  function Cut(s: string, n: nat): string { if |s| > n then s[..n] else s }

  lemma {:induction false} SubsetSize<T>(a: set<T>, b: set<T>)
    requires a <= b
    ensures |a| <= |b|
  {
    if a != {} {
      var x :| x in a;
      SubsetSize(a - {x}, b - {x});
    }
  }

  /** The n integers from lo. */
  function Range(lo: int, n: nat): (r: set<int>)
    ensures forall i :: i in r <==> lo <= i < lo + n
    ensures |r| == n
  {
    if n == 0 then {} else Range(lo, n - 1) + {lo + n - 1}
  }

  lemma Pick<T>(s: set<T>) returns (x: T)
    requires s != {}
    ensures x in s
  {
    var y :| y in s;
    x := y;
  }

  lemma {:induction false} LeastOf(s: set<int>) returns (least: int)
    requires s != {}
    ensures least in s && forall i :: i in s ==> least <= i
  {
    var x := Pick(s);
    least := x;
    if s != {x} {
      var other := LeastOf(s - {x});
      if other < x { least := other; }
      assert forall i :: i in s ==> i == x || i in s - {x};
    }
  }

  lemma Regroup<T>(a: seq<T>, b: seq<T>, c: seq<T>)
    ensures a + (b + c) == a + b + c
  {
  }

  ghost predicate Distinct<T(!new)>(s: seq<T>) { forall i, j :: 0 <= i < j < |s| ==> s[i] != s[j] }
}
