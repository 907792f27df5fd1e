/** Strings as Python compares, splits and sorts them. */
module Text {

  /** Python's `<=` on str: by code point, a proper prefix first. */
  predicate Leq(a: string, b: string) {
    || a == []
    || (b != [] && (a[0] < b[0] || (a[0] == b[0] && Leq(a[1..], b[1..]))))
  }

  lemma LeqReflexive(a: string)
    ensures Leq(a, a)
  {
  }

  lemma LeqTotal(a: string, b: string)
    ensures Leq(a, b) || Leq(b, a)
  {
  }

  lemma {:induction false} LeqTransitive(a: string, b: string, c: string)
    requires Leq(a, b) && Leq(b, c)
    ensures Leq(a, c)
  {
    if a != [] && a[0] == b[0] && b[0] == c[0] {
      LeqTransitive(a[1..], b[1..], c[1..]);
    }
  }

  lemma {:induction false} LeqAntisymmetric(a: string, b: string)
    requires Leq(a, b) && Leq(b, a)
    ensures a == b
  {
    if a != [] {
      LeqAntisymmetric(a[1..], b[1..]);
      assert a == [a[0]] + a[1..] && b == [b[0]] + b[1..];
    }
  }

  predicate IsLeast(m: string, s: set<string>) {
    m in s && forall x :: x in s ==> Leq(m, x)
  }

  lemma LeastExists(s: set<string>)
    requires s != {}
    ensures exists m :: IsLeast(m, s)
  {
    var a :| a in s;
    if s == {a} {
      LeqReflexive(a);
      assert IsLeast(a, s);
    } else {
      var rest := s - {a};
      assert s == rest + {a};
      LeastExists(rest);
      var m :| IsLeast(m, rest);
      LeqTotal(a, m);
      LeqReflexive(a);
      var least := if Leq(a, m) then a else m;
      forall x | x in s
        ensures Leq(least, x)
      {
        if least == a && x != a {
          LeqTransitive(a, m, x);
        }
      }
      assert IsLeast(least, s);
    }
  }

  lemma LeastUnique(s: set<string>)
    ensures forall a, b :: IsLeast(a, s) && IsLeast(b, s) ==> a == b
  {
    forall a, b | IsLeast(a, s) && IsLeast(b, s)
      ensures a == b
    {
      LeqAntisymmetric(a, b);
    }
  }

  function Least(s: set<string>): (m: string)
    requires s != {}
    ensures IsLeast(m, s)
  {
    LeastExists(s);
    LeastUnique(s);
    var m :| IsLeast(m, s);
    m
  }

  /** `sorted(s)` for distinct strings. */
  function Sorted(s: set<string>): (r: seq<string>)
    ensures forall x :: x in r <==> x in s
    ensures |r| == |s|
  {
    if s == {} then [] else [Least(s)] + Sorted(s - {Least(s)})
  }

  predicate Ascending(r: seq<string>) {
    forall i, j :: 0 <= i < j < |r| ==> Leq(r[i], r[j]) && r[i] != r[j]
  }

  lemma AscendingCons(x: string, r: seq<string>)
    requires Ascending(r) && forall y :: y in r ==> Leq(x, y) && x != y
    ensures Ascending([x] + r)
  {
    hide Leq;
    var all := [x] + r;
    forall i, j | 0 <= i < j < |all|
      ensures Leq(all[i], all[j]) && all[i] != all[j]
    {
      assert all[j] == r[j - 1] && r[j - 1] in r;
      assert i > 0 ==> all[i] == r[i - 1];
    }
  }

  lemma {:induction false} SortedAscends(s: set<string>)
    ensures forall i, j :: 0 <= i < j < |Sorted(s)| ==> Leq(Sorted(s)[i], Sorted(s)[j]) && Sorted(s)[i] != Sorted(s)[j]
  {
    if s != {} {
      var least := Least(s);
      var r := Sorted(s - {least});
      SortedAscends(s - {least});
      assert Sorted(s) == [least] + r;
      assert forall y :: y in s - {least} ==> Leq(least, y) && least != y;
      hide Least;
      hide IsLeast;
      hide Leq;
      hide Sorted;
      AscendingCons(least, r);
    }
  }
}
