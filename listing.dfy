/** Python sets read in iteration order. CPython lists a set in an order that depends on
    hashing; the model leaves that order open and states only what every order gives. */
module Listing {

  /** `r` lists the elements of `s`, each once. */
  ghost predicate Enumerates<T(!new)>(r: seq<T>, s: set<T>) {
    && (forall x :: x in r <==> x in s)
    && forall i, j | 0 <= i < j < |r| :: r[i] != r[j]
  }

  /** `list(s)`: Python lists a set in an order the model leaves open. */
  method ListOf<T(!new)>(s: set<T>) returns (r: seq<T>)
    ensures Enumerates(r, s)
  {
    r := [];
    var rest := s;
    while rest != {}
      invariant rest <= s
      invariant forall x :: x in r <==> x in s && x !in rest
      invariant forall i, j | 0 <= i < j < |r| :: r[i] != r[j]
      decreases |rest|
    {
      var x :| x in rest;
      r := r + [x];
      rest := rest - {x};
    }
  }

  /** One listing of `s`, used by the specification where the order cannot matter. */
  ghost function Enumeration<T(!new)>(s: set<T>): (r: seq<T>)
    ensures Enumerates(r, s)
    decreases |s|
  {
    if s == {} then []
    else
      var x :| x in s;
      [x] + Enumeration(s - {x})
  }

  /** A listing of a set without repetition is as long as the set is large. */
  lemma {:induction false} EnumerationSize<T(!new)>(r: seq<T>, s: set<T>)
    requires Enumerates(r, s)
    ensures |r| == |s|
  {
    if r != [] {
      var rest := s - {r[0]};
      forall x ensures x in r[1..] <==> x in rest {
        if x in r[1..] {
          var j :| 0 <= j < |r[1..]| && r[1..][j] == x;
          assert r[j + 1] == x;
        }
        if x in rest {
          assert x in r;
          var j :| 0 <= j < |r| && r[j] == x;
          assert j != 0;
          assert r[1..][j - 1] == x;
        }
      }
      assert Enumerates(r[1..], rest);
      EnumerationSize(r[1..], rest);
    }
  }

  /** A listing is empty exactly when its set is. */
  lemma NonEmptyListing<T(!new)>(r: seq<T>, s: set<T>)
    requires forall t :: t in r <==> t in s
    ensures |r| > 0 <==> s != {}
  {
    if s != {} {
      var t :| t in s;
      assert t in r;
    }
    if |r| > 0 {
      assert r[0] in s;
    }
  }
}
