/** Queues as sequences without duplicates, and counting their members. */
module Queues {
  predicate NoDup<T(==)>(q: seq<T>) {
    forall i, j :: 0 <= i < j < |q| ==> q[i] != q[j]
  }

  /** TAILQ_REMOVE */
  function Without<T(==)>(q: seq<T>, x: T): seq<T> {
    if q == [] then []
    else if q[0] == x then q[1..]
    else [q[0]] + Without(q[1..], x)
  }

  /** Removal takes one occurrence out and keeps everything else. */
  lemma {:induction false} WithoutIs<T>(q: seq<T>, x: T)
    ensures x !in q ==> Without(q, x) == q
    ensures x in q ==> |Without(q, x)| == |q| - 1
    ensures NoDup(q) ==> NoDup(Without(q, x)) && x !in Without(q, x)
    ensures forall y :: y != x ==> (y in Without(q, x) <==> y in q)
  {
    if q != [] {
      assert q == [q[0]] + q[1..];
      if q[0] != x {
        var rest := Without(q[1..], x);
        WithoutIs(q[1..], x);
        assert NoDup(q) ==> NoDup(q[1..]) && q[0] !in q[1..];
        assert NoDup(q) ==> NoDup(rest) && q[0] !in rest;
      } else {
        assert NoDup(q) ==> NoDup(q[1..]) && q[0] !in q[1..];
      }
    }
  }

  /** `q` without the elements of `f`. */
  function Minus<T(==)>(q: seq<T>, f: seq<T>): seq<T> {
    if q == [] then []
    else if q[0] in f then Minus(q[1..], f)
    else [q[0]] + Minus(q[1..], f)
  }

  lemma {:induction false} MinusNone<T>(q: seq<T>)
    ensures Minus(q, []) == q
  {
    if q != [] { MinusNone(q[1..]); }
  }

  lemma {:induction false} MinusIn<T>(q: seq<T>, f: seq<T>)
    ensures forall x :: x in Minus(q, f) <==> x in q && x !in f
  {
    if q != [] {
      MinusIn(q[1..], f);
      assert q == [q[0]] + q[1..];
    }
  }

  lemma {:induction false} MinusMore<T>(q: seq<T>, f: seq<T>, x: T)
    requires NoDup(q)
    ensures Without(Minus(q, f), x) == Minus(q, f + [x])
  {
    if q != [] {
      assert q == [q[0]] + q[1..];
      MinusMore(q[1..], f, x);
      if q[0] == x {
        assert x !in q[1..];
        MinusIn(q[1..], f);
        WithoutIs(Minus(q[1..], f), x);
      }
    }
  }

  lemma {:induction false} WithoutConcat<T>(q: seq<T>, r: seq<T>, x: T)
    requires x !in r
    ensures Without(q + r, x) == Without(q, x) + r
  {
    if q == [] {
      assert q + r == r;
      WithoutIs(r, x);
    } else {
      assert (q + r)[1..] == q[1..] + r;
      WithoutConcat(q[1..], r, x);
    }
  }

  /** How many elements of `q` lie in `s`. */
  function Count<T(==)>(s: set<T>, q: seq<T>): nat {
    if q == [] then 0 else (if q[0] in s then 1 else 0) + Count(s, q[1..])
  }

  lemma {:induction false} CountAppend<T>(s: set<T>, q: seq<T>, r: seq<T>)
    ensures Count(s, q + r) == Count(s, q) + Count(s, r)
  {
    if q == [] {
      assert q + r == r;
    } else {
      assert (q + r)[1..] == q[1..] + r;
      CountAppend(s, q[1..], r);
    }
  }

  lemma {:induction false} CountPut<T>(s: set<T>, q: seq<T>, x: T)
    ensures Count(s, q + [x]) == Count(s, q) + if x in s then 1 else 0
  {
    CountAppend(s, q, [x]);
    assert [x][1..] == [];
  }

  lemma {:induction false} CountWithout<T>(s: set<T>, q: seq<T>, x: T)
    requires x in q
    ensures Count(s, Without(q, x)) == Count(s, q) - if x in s then 1 else 0
  {
    if q[0] != x {
      assert q == [q[0]] + q[1..];
      CountWithout(s, q[1..], x);
      assert Without(q, x)[1..] == Without(q[1..], x);
    }
  }

  function CountAll<T(==)>(s: set<T>, qs: seq<seq<T>>): nat {
    if qs == [] then 0 else Count(s, qs[0]) + CountAll(s, qs[1..])
  }

  lemma {:induction false} CountAllUpdate<T>(s: set<T>, qs: seq<seq<T>>, i: nat, q: seq<T>)
    requires i < |qs|
    ensures CountAll(s, qs[i := q]) == CountAll(s, qs) - Count(s, qs[i]) + Count(s, q)
  {
    if i == 0 {
      assert qs[0 := q][1..] == qs[1..];
    } else {
      assert qs[i := q][1..] == qs[1..][i - 1 := q];
      CountAllUpdate(s, qs[1..], i - 1, q);
    }
  }

  function Total<T>(qs: seq<seq<T>>): nat {
    if qs == [] then 0 else |qs[0]| + Total(qs[1..])
  }

  lemma {:induction false} TotalUpdate<T>(qs: seq<seq<T>>, i: nat, q: seq<T>)
    requires i < |qs|
    ensures Total(qs[i := q]) == Total(qs) - |qs[i]| + |q|
  {
    if i == 0 {
      assert qs[0 := q][1..] == qs[1..];
    } else {
      assert qs[i := q][1..] == qs[1..][i - 1 := q];
      TotalUpdate(qs[1..], i - 1, q);
    }
  }

  lemma {:induction false} CountZero<T>(s: set<T>, q: seq<T>, x: T)
    requires Count(s, q) == 0 && x in s
    ensures x !in q
  {
    if q != [] {
      assert q == [q[0]] + q[1..];
      CountZero(s, q[1..], x);
    }
  }

  lemma {:induction false} CountAllZero<T>(s: set<T>, qs: seq<seq<T>>, i: nat)
    requires CountAll(s, qs) == 0 && i < |qs|
    ensures Count(s, qs[i]) == 0
  {
    if i > 0 {
      CountAllZero(s, qs[1..], i - 1);
    }
  }

  lemma {:induction false} AllEmpty<T>(s: set<T>, qs: seq<seq<T>>)
    requires forall i :: 0 <= i < |qs| ==> qs[i] == []
    ensures CountAll(s, qs) == 0 && Total(qs) == 0
  {
    if qs != [] { AllEmpty(s, qs[1..]); }
  }
}
