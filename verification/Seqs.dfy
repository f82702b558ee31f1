/** Facts about sequences without repetitions, shared by the list-shaped structures of the model. */
module Seqs {

  ghost predicate NoDup<T>(s: seq<T>) {
    forall i, j :: 0 <= i < j < |s| ==> s[i] != s[j]
  }

  function Elems<T>(s: seq<T>): set<T> {
    set x | x in s
  }

  /** Every element of a repetition-free sequence can be counted once. */
  lemma {:induction false} NoDupSize<T>(s: seq<T>, u: set<T>)
    requires NoDup(s)
    requires forall x :: x in s ==> x in u
    ensures |s| <= |u|
  {
    if s != [] {
      var last := s[|s| - 1];
      forall x | x in s[..|s| - 1] ensures x in u - {last} {
      }
      NoDupSize(s[..|s| - 1], u - {last});
    }
  }

  lemma NoDupTail<T>(s: seq<T>)
    requires NoDup(s) && s != []
    ensures NoDup(s[1..]) && s[0] !in s[1..]
  {
  }

  lemma NoDupInsert<T>(s: seq<T>, k: nat, x: T)
    requires NoDup(s) && k <= |s| && x !in s
    ensures NoDup(s[..k] + [x] + s[k..])
    ensures forall y :: y in s[..k] + [x] + s[k..] <==> y == x || y in s
  {
    var t := s[..k] + [x] + s[k..];
    forall y | y == x || y in s ensures y in t {
      if y == x {
        assert t[k] == x;
      } else {
        var i :| 0 <= i < |s| && s[i] == y;
        assert t[if i < k then i else i + 1] == y;
      }
    }
  }

  lemma NoDupRemove<T>(s: seq<T>, k: nat)
    requires NoDup(s) && k < |s|
    ensures NoDup(s[..k] + s[k + 1..])
    ensures forall y :: y in s[..k] + s[k + 1..] <==> y != s[k] && y in s
  {
    var t := s[..k] + s[k + 1..];
    forall y | y != s[k] && y in s ensures y in t {
      var i :| 0 <= i < |s| && s[i] == y;
      assert t[if i < k then i else i - 1] == y;
    }
  }

  /** Moving the head of `s` to the head of `t` keeps the two lists free of repetitions. */
  lemma NoDupMove<T>(s: seq<T>, t: seq<T>)
    requires NoDup(s + t) && s != []
    ensures s[0] !in s[1..] && s[0] !in t
    ensures NoDup(s[1..] + t) && NoDup(s[1..] + ([s[0]] + t))
    ensures forall x :: x in s <==> x == s[0] || x in s[1..]
  {
    var r := s[1..] + t;
    assert s + t == [s[0]] + r;
    NoDupTail(s + t);
    assert (s + t)[1..] == r;
    assert s[1..] + ([s[0]] + t) == r[..|s| - 1] + [s[0]] + r[|s| - 1..];
    NoDupInsert(r, |s| - 1, s[0]);
    assert forall x :: x in r <==> x in s[1..] || x in t;
    assert s == [s[0]] + s[1..];
  }

  /** `s` without its first `x` */
  function Without<T(==, !new)>(s: seq<T>, x: T): (r: seq<T>)
    ensures NoDup(s) ==> NoDup(r) && forall y :: y in r <==> y in s && y != x
  {
    if s == [] then []
    else
      assert s == [s[0]] + s[1..];
      assert NoDup(s) ==> NoDup(s[1..]) && s[0] !in s[1..];
      if s[0] == x then s[1..]
      else
        var r := Without(s[1..], x);
        assert NoDup(s) ==> NoDup(r) && s[0] !in r;
        [s[0]] + r
  }

  lemma Smaller<T>(a: set<T>, b: set<T>)
    requires a <= b
    ensures |a| <= |b|
  {
    assert b == a + (b - a);
  }

  /** The first position of `x` */
  function Position<T(==)>(s: seq<T>, x: T): (k: nat)
    requires x in s
    ensures k < |s| && s[k] == x
  {
    if s[0] == x then 0 else Position(s[1..], x) + 1
  }
}
