/** Small datatypes and the order on strings that the rest of the model shares. */
module Prelude {

  datatype Option<+T> = None | Some(value: T)

  datatype Result<+T> = Ok(value: T) | Err(error: string)

  /** Lexicographic order by code unit: how ids and paths are sorted. */
  predicate Le(a: string, b: string) {
    a == "" || (b != "" && (a[0] < b[0] || (a[0] == b[0] && Le(a[1..], b[1..]))))
  }

  lemma {:induction false} LeTotal(a: string, b: string)
    ensures Le(a, b) || Le(b, a)
  {
    if a != "" && b != "" && a[0] == b[0] {
      LeTotal(a[1..], b[1..]);
    }
  }

  lemma {:induction false} LeAntisymmetric(a: string, b: string)
    requires Le(a, b) && Le(b, a)
    ensures a == b
  {
    if a != "" && b != "" {
      LeAntisymmetric(a[1..], b[1..]);
      assert a == [a[0]] + a[1..] && b == [b[0]] + b[1..];
    }
  }

  lemma {:induction false} LeTransitive(a: string, b: string, c: string)
    requires Le(a, b) && Le(b, c)
    ensures Le(a, c)
  {
    if a != "" && b != "" && c != "" && a[0] == b[0] && b[0] == c[0] {
      LeTransitive(a[1..], b[1..], c[1..]);
    }
  }

  ghost predicate IsLeast(x: string, s: set<string>) {
    x in s && forall y | y in s :: Le(x, y)
  }

  lemma {:induction false} LeastExists(s: set<string>)
    requires s != {}
    ensures exists x :: IsLeast(x, s)
    decreases |s|
  {
    var y :| y in s;
    if s == {y} {
      LeTotal(y, y);
      assert IsLeast(y, s);
    } else {
      LeastExists(s - {y});
      var x :| IsLeast(x, s - {y});
      LeTotal(x, y);
      LeTotal(y, y);
      if Le(x, y) {
        assert IsLeast(x, s);
      } else {
        forall z | z in s ensures Le(y, z) {
          if z != y { LeTransitive(y, x, z); }
        }
        assert IsLeast(y, s);
      }
    }
  }

  lemma LeastUnique(x: string, y: string, s: set<string>)
    requires IsLeast(x, s) && IsLeast(y, s)
    ensures x == y
  {
    LeAntisymmetric(x, y);
  }

  lemma LeastChosen(s: set<string>)
    requires s != {}
    ensures exists x :: x in s && forall y | y in s :: Le(x, y)
    ensures forall a, b | (a in s && forall y | y in s :: Le(a, y)) && (b in s && forall y | y in s :: Le(b, y)) ::
            a == b
  {
    LeastExists(s);
    var x :| IsLeast(x, s);
    assert x in s && forall y | y in s :: Le(x, y);
    hide Le;
    forall a, b | (a in s && forall y | y in s :: Le(a, y)) && (b in s && forall y | y in s :: Le(b, y))
      ensures a == b
    {
      LeastUnique(a, b, s);
    }
  }

  /** The first element of a set in sorted order. */
  function Least(s: set<string>): (x: string)
    requires s != {}
    ensures IsLeast(x, s)
  {
    LeastChosen(s);
    var x :| x in s && forall y | y in s :: Le(x, y);
    x
  }

  /** A set of keys, sorted. */
  function Sorted(s: set<string>): (r: seq<string>)
    ensures forall x :: x in r <==> x in s
    ensures forall i, j | 0 <= i < j < |r| :: r[i] != r[j] && Le(r[i], r[j])
    decreases |s|
  {
    if s == {} then [] else
    var x := Least(s);
    var rest := Sorted(s - {x});
    assert |s - {x}| < |s|;
    [x] + rest
  }

  /** No element occurs twice. */
  ghost predicate NoDup<T>(s: seq<T>) {
    forall i, j | 0 <= i < j < |s| :: s[i] != s[j]
  }

  lemma SomeElement<T>(s: seq<T>)
    ensures s != [] ==> exists x :: x in s
  {
    if s != [] { assert s[0] in s; }
  }

  ghost function Elems<T>(s: seq<T>): set<T> {
    set x | x in s
  }
}
