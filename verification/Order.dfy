/** The byte order of strings, and the one ordered list of a set of them. */
module Order {

  /** `a` sorts before `b`: at the first difference, or as a proper prefix. */
  predicate Less(a: string, b: string) {
    b != "" && (a == "" || a[0] < b[0] || (a[0] == b[0] && Less(a[1..], b[1..])))
  }

  type Before = (string, string) -> bool

  /** A strict total order. */
  ghost predicate IsOrder(lt: Before) {
    && (forall a, b :: a == b || lt(a, b) || lt(b, a))
    && (forall a, b :: !(lt(a, b) && (a == b || lt(b, a))))
    && (forall a, b, c :: lt(a, b) && lt(b, c) ==> lt(a, c))
  }

  lemma {:induction false} Total(a: string, b: string)
    ensures a == b || Less(a, b) || Less(b, a)
    ensures !(Less(a, b) && (a == b || Less(b, a)))
  {
    if a != "" && b != "" && a[0] == b[0] {
      Total(a[1..], b[1..]);
      assert a == [a[0]] + a[1..] && b == [b[0]] + b[1..];
    }
  }

  lemma {:induction false} Trans(a: string, b: string, c: string)
    requires Less(a, b) && Less(b, c)
    ensures Less(a, c)
  {
    if a != "" && a[0] == b[0] && b[0] == c[0] {
      Trans(a[1..], b[1..], c[1..]);
    }
  }

  /** The two agree up to some place, and there one goes on with a lesser byte, or has ended. */
  predicate Parts(a: string, b: string, n: int) {
    0 <= n <= |a| && n < |b| && a[..n] == b[..n] && (n < |a| ==> a[n] < b[n])
  }

  lemma PartsFirst(a: string, b: string, n: int)
    requires Parts(a, b, n)
    ensures b != "" && (a == "" || a[0] <= b[0])
  {
    if n > 0 {
      assert a[0] == a[..n][0] && b[0] == b[..n][0];
    }
  }

  lemma {:induction false} LessExactly(a: string, b: string)
    ensures Less(a, b) <==> exists n :: Parts(a, b, n)
  {
    if a == "" || b == "" || a[0] != b[0] {
      assert b != "" && (a == "" || a[0] < b[0]) ==> Parts(a, b, 0);
      if n :| Parts(a, b, n) {
        PartsFirst(a, b, n);
      }
    } else {
      LessExactly(a[1..], b[1..]);
      if n :| Parts(a[1..], b[1..], n) {
        assert a[..n + 1] == [a[0]] + a[1..][..n] && b[..n + 1] == [b[0]] + b[1..][..n];
        assert Parts(a, b, n + 1);
      }
      if n :| Parts(a, b, n) {
        assert a[1..][..n - 1] == a[..n][1..] && b[1..][..n - 1] == b[..n][1..];
        assert Parts(a[1..], b[1..], n - 1);
      }
    }
  }

  lemma LessIsOrder()
    ensures IsOrder(Less)
  {
    hide Less;
    forall a, b
      ensures a == b || Less(a, b) || Less(b, a)
      ensures !(Less(a, b) && (a == b || Less(b, a)))
    {
      Total(a, b);
    }
    forall a, b, c | Less(a, b) && Less(b, c)
      ensures Less(a, c)
    {
      Trans(a, b, c);
    }
  }

  predicate Ascending(lt: Before, q: seq<string>) {
    forall i, j :: 0 <= i < j < |q| ==> lt(q[i], q[j])
  }

  /** Insert a new string where it belongs. */
  function Insert(lt: Before, q: seq<string>, k: string): seq<string> {
    if q == [] then [k] else if lt(k, q[0]) then [k] + q else [q[0]] + Insert(lt, q[1..], k)
  }

  lemma {:induction false} InsertIn(lt: Before, q: seq<string>, k: string)
    ensures |Insert(lt, q, k)| == |q| + 1 && forall x :: x in Insert(lt, q, k) <==> x in q || x == k
    decreases |q|
  {
    if q != [] {
      InsertIn(lt, q[1..], k);
      assert q == [q[0]] + q[1..];
    }
  }

  lemma {:induction false} InsertAscending(lt: Before, q: seq<string>, k: string)
    requires IsOrder(lt) && Ascending(lt, q) && k !in q
    ensures Ascending(lt, Insert(lt, q, k))
    decreases |q|
  {
    if q != [] && !lt(k, q[0]) {
      var rest := Insert(lt, q[1..], k);
      InsertAscending(lt, q[1..], k);
      InsertIn(lt, q[1..], k);
      assert q[0] in q;
      forall j | 0 <= j < |rest|
        ensures lt(q[0], rest[j])
      {
        assert rest[j] in rest;
        if rest[j] in q[1..] {
          var i :| 0 <= i < |q[1..]| && q[1..][i] == rest[j];
          assert q[i + 1] == rest[j];
        }
      }
    }
  }

  /** Two ordered lists of the same strings are the same. */
  lemma {:induction false} OneAscending(lt: Before, p: seq<string>, q: seq<string>)
    requires IsOrder(lt) && Ascending(lt, p) && Ascending(lt, q) && forall x :: x in p <==> x in q
    ensures p == q
    decreases |p|
  {
    if q != [] {
      assert q[0] in q;
    }
    if p != [] {
      assert p[0] in q;
      SameFirst(lt, p, q);
      forall x
        ensures x in p[1..] <==> x in q[1..]
      {
        NotAgain(lt, p, x);
        NotAgain(lt, q, x);
      }
      OneAscending(lt, p[1..], q[1..]);
      assert p == [p[0]] + p[1..] && q == [q[0]] + q[1..];
    }
  }

  lemma SameFirst(lt: Before, p: seq<string>, q: seq<string>)
    requires IsOrder(lt) && Ascending(lt, p) && Ascending(lt, q) && (forall x :: x in p <==> x in q) && p != [] &&
             q != []
    ensures p[0] == q[0]
  {
    assert p[0] in q && q[0] in p;
  }

  lemma NotAgain(lt: Before, p: seq<string>, x: string)
    requires IsOrder(lt) && Ascending(lt, p) && p != []
    ensures x in p[1..] <==> x in p && x != p[0]
  {
    assert p == [p[0]] + p[1..];
    assert forall i :: 0 <= i < |p[1..]| ==> p[1..][i] == p[i + 1] && lt(p[0], p[i + 1]);
  }

  /** The strings of a set, in order. */
  ghost function Sorted(lt: Before, s: set<string>): (q: seq<string>)
    requires IsOrder(lt)
    ensures Ascending(lt, q) && (forall x :: x in q <==> x in s)
    decreases |s|
  {
    if s == {} then [] else
      var k :| k in s;
      InsertIn(lt, Sorted(lt, s - {k}), k);
      InsertAscending(lt, Sorted(lt, s - {k}), k);
      Insert(lt, Sorted(lt, s - {k}), k)
  }

  /** Collect the keys of a map, in whatever order it gives them, and sort them. */
  method Sort(lt: Before, s: set<string>) returns (q: seq<string>)
    requires IsOrder(lt)
    ensures q == Sorted(lt, s)
  {
    hide Sorted, IsOrder;
    q := [];
    var left := s;
    while left != {}
      invariant left <= s && Ascending(lt, q) && forall x :: x in q <==> x in s - left
    {
      var k :| k in left;
      InsertAscending(lt, q, k);
      InsertIn(lt, q, k);
      q := Insert(lt, q, k);
      left := left - {k};
    }
    OneAscending(lt, q, Sorted(lt, s));
  }

  /** The strings of a set, ascending. */
  ghost function SortedKeys(s: set<string>): (q: seq<string>)
    ensures Ascending(Less, q) && (forall x :: x in q <==> x in s)
  {
    LessIsOrder();
    Sorted(Less, s)
  }

  method SortKeys(s: set<string>) returns (q: seq<string>)
    ensures q == SortedKeys(s)
  {
    LessIsOrder();
    q := Sort(Less, s);
  }
}
