/** Python's `sorted` on string keys: ascending code point order, the one sequence a finite set has. */
module SortedKeys {

  /** Strict lexicographic order. */
  predicate Before(a: string, b: string) {
    b != "" && (a == "" || a[0] < b[0] || (a[0] == b[0] && Before(a[1..], b[1..])))
  }

  lemma {:induction false} BeforeIsTotal(a: string, b: string)
    ensures a == b || Before(a, b) || Before(b, a)
  {
    if a != "" && b != "" && a[0] == b[0] {
      BeforeIsTotal(a[1..], b[1..]);
      assert a[1..] == b[1..] ==> a == [a[0]] + a[1..] == [b[0]] + b[1..] == b;
    }
  }

  lemma {:induction false} BeforeIsAsymmetric(a: string, b: string)
    ensures !(Before(a, b) && Before(b, a))
  {
    if a != "" && b != "" {
      BeforeIsAsymmetric(a[1..], b[1..]);
    }
  }

  lemma {:induction false} BeforeIsTransitive(a: string, b: string, c: string)
    requires Before(a, b) && Before(b, c)
    ensures Before(a, c)
  {
    if a != "" && a[0] == b[0] == c[0] {
      BeforeIsTransitive(a[1..], b[1..], c[1..]);
    }
  }

  predicate IsLeast(k: string, keys: set<string>) {
    k in keys && forall j :: j in keys && j != k ==> Before(k, j)
  }

  lemma {:induction false} LeastExists(keys: set<string>)
    requires keys != {}
    ensures exists k :: IsLeast(k, keys)
  {
    var k :| k in keys;
    if keys == {k} {
      assert IsLeast(k, keys);
    } else {
      LeastExists(keys - {k});
      var l :| IsLeast(l, keys - {k});
      BeforeIsTotal(k, l);
      if Before(k, l) {
        forall j | j in keys && j != k
          ensures Before(k, j)
        {
          if j != l { BeforeIsTransitive(k, l, j); }
        }
        assert IsLeast(k, keys);
      } else {
        assert IsLeast(l, keys);
      }
    }
  }

  lemma LeastIsUnique(keys: set<string>)
    ensures forall k, l :: IsLeast(k, keys) && IsLeast(l, keys) ==> k == l
  {
    forall k, l | IsLeast(k, keys) && IsLeast(l, keys)
      ensures k == l
    {
      BeforeIsAsymmetric(k, l);
    }
  }

  predicate Ascending(keys: seq<string>) {
    forall i, j :: 0 <= i < j < |keys| ==> Before(keys[i], keys[j])
  }

  function Sorted(keys: set<string>): (r: seq<string>)
    ensures Ascending(r)
    ensures forall k :: k in r <==> k in keys
  {
    if keys == {} then []
    else
      LeastExists(keys);
      LeastIsUnique(keys);
      var k :| IsLeast(k, keys);
      [k] + Sorted(keys - {k})
  }

  /** An ascending sequence is determined by the keys it holds. */
  lemma {:induction false} AscendingIsUnique(a: seq<string>, b: seq<string>)
    requires Ascending(a) && Ascending(b)
    requires forall k :: k in a <==> k in b
    ensures a == b
  {
    assert |a| > 0 ==> a[0] in a;
    assert |b| > 0 ==> b[0] in b;
    if a != [] && b != [] {
      assert a[0] in b && b[0] in a;
      BeforeIsAsymmetric(a[0], b[0]);
      assert a[0] == b[0];
      TailLosesHead(a);
      TailLosesHead(b);
      AscendingIsUnique(a[1..], b[1..]);
      assert a == [a[0]] + a[1..];
      assert b == [b[0]] + b[1..];
    }
  }

  lemma TailLosesHead(a: seq<string>)
    requires Ascending(a) && a != []
    ensures Ascending(a[1..])
    ensures forall k :: k in a[1..] <==> k in a && k != a[0]
  {
    forall k | k in a[1..]
      ensures k != a[0]
    {
      BeforeIsAsymmetric(a[0], k);
    }
  }
}
