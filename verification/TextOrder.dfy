/** Strings in the order of their code points, as `sorted` arranges them. */
module TextOrder {

  predicate Below(a: string, b: string) {
    b != "" && (a == "" || a[0] < b[0] || (a[0] == b[0] && Below(a[1..], b[1..])))
  }

  lemma {:induction false} Trichotomy(a: string, b: string)
    ensures a == b || Below(a, b) || Below(b, a)
    ensures !(Below(a, b) && Below(b, a)) && !Below(a, a)
  {
    if a != "" && b != "" {
      Trichotomy(a[1..], b[1..]);
      assert a == [a[0]] + a[1..] && b == [b[0]] + b[1..];
    }
    if a != "" {
      Trichotomy(a[1..], a[1..]);
    }
  }

  lemma {:induction false} Transitive(a: string, b: string, c: string)
    requires Below(a, b) && Below(b, c)
    ensures Below(a, c)
  {
    if a != "" && a[0] == b[0] && b[0] == c[0] {
      Transitive(a[1..], b[1..], c[1..]);
    }
  }

  predicate IsLeast(x: string, s: set<string>) {
    x in s && forall y :: y in s ==> y == x || Below(x, y)
  }

  lemma {:induction false} LeastExists(s: set<string>)
    requires s != {}
    ensures exists x :: IsLeast(x, s)
  {
    var x :| x in s;
    if s == {x} {
      assert IsLeast(x, s);
    } else {
      var rest := s - {x};
      assert s == rest + {x};
      assert rest != {};
      LeastExists(rest);
      var m :| IsLeast(m, rest);
      Trichotomy(x, m);
      var least := if Below(x, m) then x else m;
      forall y | y in s && y != least ensures Below(least, y) {
        if least == x && y != m {
          Transitive(x, m, y);
        }
      }
      assert IsLeast(least, s);
    }
  }

  lemma LeastIsUnique(s: set<string>)
    ensures forall x, y :: IsLeast(x, s) && IsLeast(y, s) ==> x == y
  {
    forall x, y | IsLeast(x, s) && IsLeast(y, s) ensures x == y {
      Trichotomy(x, y);
    }
  }

  /** The elements in increasing order. */
  function Sorted(s: set<string>): (r: seq<string>)
    ensures forall x :: x in r <==> x in s
    ensures forall i, j :: 0 <= i < j < |r| ==> r[i] != r[j]
  {
    if s == {} then []
    else
      LeastExists(s);
      LeastIsUnique(s);
      var x :| x in s && IsLeast(x, s);
      [x] + Sorted(s - {x})
  }

  lemma {:induction false} SortedIncreases(s: set<string>)
    ensures forall i, j :: 0 <= i < j < |Sorted(s)| ==> Below(Sorted(s)[i], Sorted(s)[j])
  {
    var r := Sorted(s);
    if s != {} {
      SortedIncreases(s - {r[0]});
      var rest := Sorted(s - {r[0]});
      assert IsLeast(r[0], s);
      forall i, j | 0 <= i < j < |r| ensures Below(r[i], r[j]) {
        assert r[j] in rest && r[j] == rest[j - 1];
      }
    }
  }
}
