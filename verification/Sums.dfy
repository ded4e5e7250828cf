/** Sums over finite sets, the meaning of SQL's SUM and COUNT over a group. */
module Sums {

  lemma SubsetSize<T>(s: set<T>, t: set<T>)
    requires s <= t
    ensures |s| <= |t|
  {
    assert t == s + (t - s);
  }

  /** The numbers 0, ..., n - 1. */
  function Below(n: nat): (r: set<nat>)
    ensures |r| == n && forall i: nat :: i in r <==> i < n
  {
    if n == 0 then {} else Below(n - 1) + {n - 1}
  }

  ghost function Sum<T(!new)>(s: set<T>, f: T -> int): int {
    if s == {} then 0
    else
      var x :| x in s;
      f(x) + Sum(s - {x}, f)
  }

  lemma {:induction false} Remove<T(!new)>(s: set<T>, f: T -> int, x: T)
    requires x in s
    ensures Sum(s, f) == f(x) + Sum(s - {x}, f)
    decreases s
  {
    var y :| y in s && Sum(s, f) == f(y) + Sum(s - {y}, f);
    if y != x {
      Remove(s - {y}, f, x);
      Remove(s - {x}, f, y);
      assert s - {y} - {x} == s - {x} - {y};
    }
  }

  lemma {:induction false} Congruent<T(!new)>(s: set<T>, f: T -> int, g: T -> int)
    requires forall x :: x in s ==> f(x) == g(x)
    ensures Sum(s, f) == Sum(s, g)
    decreases s
  {
    if s != {} {
      var x :| x in s;
      Remove(s, f, x);
      Remove(s, g, x);
      Congruent(s - {x}, f, g);
    }
  }

  lemma {:induction false} AtMost<T(!new)>(s: set<T>, f: T -> int, g: T -> int)
    requires forall x :: x in s ==> f(x) <= g(x)
    ensures Sum(s, f) <= Sum(s, g)
    decreases s
  {
    if s != {} {
      var x :| x in s;
      Remove(s, f, x);
      Remove(s, g, x);
      AtMost(s - {x}, f, g);
    }
  }

  /** A measure that nowhere grows, and falls by at least one on t, falls by at least |t|. */
  lemma {:induction false} DropsBy<T(!new)>(s: set<T>, t: set<T>, f: T -> int, g: T -> int)
    requires t <= s
    requires forall x :: x in t ==> g(x) <= f(x) - 1
    requires forall x :: x in s - t ==> g(x) <= f(x)
    ensures Sum(s, g) <= Sum(s, f) - |t|
    decreases s
  {
    if s != {} {
      var x :| x in s;
      Remove(s, f, x);
      Remove(s, g, x);
      DropsBy(s - {x}, t - {x}, f, g);
    }
  }

  /** A measure one lower on t and unchanged elsewhere is |t| lower in all. */
  lemma {:induction false} OneLowerOn<T(!new)>(s: set<T>, t: set<T>, f: T -> int, g: T -> int)
    requires t <= s
    requires forall x :: x in t ==> g(x) == f(x) - 1
    requires forall x :: x in s - t ==> g(x) == f(x)
    ensures Sum(s, g) == Sum(s, f) - |t|
    decreases s
  {
    if s != {} {
      var x :| x in s;
      Remove(s, f, x);
      Remove(s, g, x);
      OneLowerOn(s - {x}, t - {x}, f, g);
    }
  }

  lemma {:induction false} Added<T(!new)>(s: set<T>, f: T -> int, g: T -> int, h: T -> int)
    requires forall x :: x in s ==> f(x) + g(x) == h(x)
    ensures Sum(s, f) + Sum(s, g) == Sum(s, h)
    decreases s
  {
    if s != {} {
      var x :| x in s;
      Remove(s, f, x);
      Remove(s, g, x);
      Remove(s, h, x);
      Added(s - {x}, f, g, h);
    }
  }

  lemma {:induction false} Constant<T(!new)>(s: set<T>, f: T -> int, c: int)
    requires forall x :: x in s ==> f(x) == c
    ensures Sum(s, f) == c * |s|
    decreases s
  {
    if s != {} {
      var x :| x in s;
      Remove(s, f, x);
      Constant(s - {x}, f, c);
    }
  }

  lemma {:induction false} Disjoint<T(!new)>(s: set<T>, t: set<T>, f: T -> int)
    requires s !! t
    ensures Sum(s + t, f) == Sum(s, f) + Sum(t, f)
    decreases s
  {
    if s == {} {
      assert s + t == t;
    } else {
      var x :| x in s;
      Remove(s, f, x);
      Remove(s + t, f, x);
      assert s + t - {x} == (s - {x}) + t;
      Disjoint(s - {x}, t, f);
    }
  }

  lemma Split<T(!new)>(s: set<T>, t: set<T>, f: T -> int)
    requires t <= s
    ensures Sum(s, f) == Sum(t, f) + Sum(s - t, f)
  {
    assert t + (s - t) == s;
    Disjoint(t, s - t, f);
  }

  /** The rows of s whose grouping key is k. */
  ghost function Group<T(!new), K(!new)>(s: set<T>, key: T -> K, k: K): set<T> {
    set x | x in s && key(x) == k
  }

  ghost function GroupSum<T(!new), K(!new)>(s: set<T>, f: T -> int, key: T -> K): K -> int {
    k => Sum(Group(s, key, k), f)
  }

  /** GROUP BY: summing the sums of the groups loses and doubles nothing. */
  lemma {:induction false} Grouped<T(!new), K(!new)>(s: set<T>, f: T -> int, key: T -> K, keys: set<K>)
    requires forall x :: x in s ==> key(x) in keys
    ensures Sum(s, f) == Sum(keys, GroupSum(s, f, key))
    decreases keys
  {
    if keys == {} {
      assert s == {};
    } else {
      var k0 :| k0 in keys;
      var group := Group(s, key, k0);
      var rest := s - group;
      Split(s, group, f);
      Grouped(rest, f, key, keys - {k0});
      forall k | k in keys - {k0} ensures GroupSum(s, f, key)(k) == GroupSum(rest, f, key)(k) {
        assert Group(s, key, k) == Group(rest, key, k);
      }
      Congruent(keys - {k0}, GroupSum(s, f, key), GroupSum(rest, f, key));
      Remove(keys, GroupSum(s, f, key), k0);
    }
  }

  /** A one-to-one correspondence that keeps every value keeps the sum. */
  lemma {:induction false} Reindexed<A(!new), B(!new)>(s: set<A>, t: set<B>, g: A -> B, f: A -> int, h: B -> int)
    requires forall x :: x in s ==> g(x) in t && f(x) == h(g(x))
    requires forall x, y :: x in s && y in s && g(x) == g(y) ==> x == y
    requires forall z :: z in t ==> exists x :: x in s && g(x) == z
    ensures Sum(s, f) == Sum(t, h)
    decreases s
  {
    if s == {} {
      assert t == {};
    } else {
      var x :| x in s;
      Remove(s, f, x);
      Remove(t, h, g(x));
      forall z | z in t - {g(x)} ensures exists y :: y in s - {x} && g(y) == z {
        var y :| y in s && g(y) == z;
      }
      Reindexed(s - {x}, t - {g(x)}, g, f, h);
    }
  }

  lemma {:induction false} NonNegative<T(!new)>(s: set<T>, f: T -> int)
    requires forall x :: x in s ==> f(x) >= 0
    ensures Sum(s, f) >= 0
    ensures Sum(s, f) == 0 <==> forall x :: x in s ==> f(x) == 0
    decreases s
  {
    if s != {} {
      var x :| x in s;
      Remove(s, f, x);
      NonNegative(s - {x}, f);
    }
  }

  function Positive(n: int): int { if n > 0 then n else 0 }

  /** Adding up the positive parts gives no less than the positive part of the sum, and as much exactly when
      no two terms have opposite signs. */
  lemma PositiveParts<T(!new)>(s: set<T>, f: T -> int, up: T -> int, down: T -> int)
    requires forall x :: x in s ==> up(x) == Positive(f(x)) && down(x) == Positive(-f(x))
    ensures Sum(s, up) >= Positive(Sum(s, f))
    ensures Sum(s, up) == Positive(Sum(s, f)) <==>
            ((forall x :: x in s ==> f(x) >= 0) || (forall x :: x in s ==> f(x) <= 0))
  {
    hide Sum;
    Added(s, f, down, up);
    NonNegative(s, up);
    NonNegative(s, down);
    assert (forall x :: x in s ==> f(x) >= 0) <==> (forall x :: x in s ==> down(x) == 0);
    assert (forall x :: x in s ==> f(x) <= 0) <==> (forall x :: x in s ==> up(x) == 0);
  }

  function SumOver<T>(s: seq<T>, f: T -> int): int {
    if |s| == 0 then 0 else SumOver(s[..|s| - 1], f) + f(s[|s| - 1])
  }

  ghost function SetOf<T>(s: seq<T>): (r: set<T>)
  {
    set x | x in s
  }

  /** A list without repetitions sums to what its set sums to. */
  lemma {:induction false} ListIsSet<T(!new)>(s: seq<T>, f: T -> int)
    requires forall i, j :: 0 <= i < j < |s| ==> s[i] != s[j]
    ensures SumOver(s, f) == Sum(SetOf(s), f)
  {
    var all := SetOf(s);
    if |s| == 0 {
      assert all == {};
    } else {
      var init, last := s[..|s| - 1], s[|s| - 1];
      ListIsSet(init, f);
      Remove(all, f, last);
      assert s == init + [last];
      assert all - {last} == SetOf(init);
    }
  }
}
