/**
 The host's array sort, as a stable insertion sort that only ever asks whether
 the comparison of two elements is negative. The result is the same for every
 stable sort that asks the same question: `SortedOnce` determines it.
 */
module StableSort {

  /** `less` is a strict weak order. */
  ghost predicate StrictWeak<T(!new)>(less: (T, T) -> bool) {
    && (forall x, y :: less(x, y) ==> !less(y, x))
    && (forall x, y, z :: !less(x, y) && !less(y, z) ==> !less(x, z))
  }

  /** Neither of `x` and `y` comes before the other. */
  predicate Tied<T>(less: (T, T) -> bool, x: T, y: T) {
    !less(x, y) && !less(y, x)
  }

  /** The elements tied with `r`, in order. */
  function TiedWith<T>(less: (T, T) -> bool, s: seq<T>, r: T): seq<T> {
    if s == [] then []
    else if Tied(less, s[0], r) then [s[0]] + TiedWith(less, s[1..], r)
    else TiedWith(less, s[1..], r)
  }

  ghost predicate Ascending<T>(less: (T, T) -> bool, s: seq<T>) {
    forall i, j :: 0 <= i < j < |s| ==> !less(s[j], s[i])
  }

  /** `t` is `s` in ascending order, ties in their original order. */
  ghost predicate SortedOnce<T(!new)>(less: (T, T) -> bool, s: seq<T>, t: seq<T>) {
    && Ascending(less, t)
    && (forall r :: TiedWith(less, t, r) == TiedWith(less, s, r))
  }

  lemma {:induction false} TiedWithAppend<T>(less: (T, T) -> bool, s: seq<T>, t: seq<T>, r: T)
    ensures TiedWith(less, s + t, r) == TiedWith(less, s, r) + TiedWith(less, t, r)
  {
    if s == [] {
      assert s + t == t;
    } else {
      assert (s + t)[1..] == s[1..] + t;
      TiedWithAppend(less, s[1..], t, r);
    }
  }

  lemma {:induction false} NoneTied<T>(less: (T, T) -> bool, s: seq<T>, r: T)
    requires forall x :: x in s ==> !Tied(less, x, r)
    ensures TiedWith(less, s, r) == []
  {
    if s != [] {
      NoneTied(less, s[1..], r);
    }
  }

  lemma {:induction false} TiedMember<T>(less: (T, T) -> bool, s: seq<T>, r: T)
    requires TiedWith(less, s, r) != []
    ensures exists i :: 0 <= i < |s| && Tied(less, s[i], r)
  {
    if !Tied(less, s[0], r) {
      TiedMember(less, s[1..], r);
      var i :| 0 <= i < |s[1..]| && Tied(less, s[1..][i], r);
      assert s[i + 1] == s[1..][i];
    }
  }

  /** Putting `x` past everything it is not before, and before only what it precedes, keeps ties in order. */
  lemma InsertKeepsTies<T(!new)>(less: (T, T) -> bool, a: seq<T>, x: T, b: seq<T>, r: T)
    requires StrictWeak(less) && forall y :: y in b ==> less(x, y)
    ensures TiedWith(less, a + [x] + b, r) == TiedWith(less, a + b + [x], r)
  {
    TiedWithAppend(less, a + [x], b, r);
    TiedWithAppend(less, a, [x], r);
    TiedWithAppend(less, a + b, [x], r);
    TiedWithAppend(less, a, b, r);
    if Tied(less, x, r) {
      forall y | y in b ensures !Tied(less, y, r) {
        assert less(x, y);
      }
      NoneTied(less, b, r);
    } else {
      assert TiedWith(less, [x], r) == [];
    }
  }

  /** Insert `x` after the last element it is not before. */
  method Insert<T(!new)>(less: (T, T) -> bool, s: seq<T>, x: T) returns (t: seq<T>)
    requires StrictWeak(less) && Ascending(less, s)
    ensures Ascending(less, t) && multiset(t) == multiset(s) + multiset{x}
    ensures forall r :: TiedWith(less, t, r) == TiedWith(less, s + [x], r)
  {
    hide StrictWeak, Ascending;
    var j := |s|;
    while j > 0 && less(x, s[j - 1])
      invariant 0 <= j <= |s|
      invariant forall k :: j <= k < |s| ==> less(x, s[k])
    {
      j := j - 1;
    }
    var a, b := s[..j], s[j..];
    assert s == a + b;
    t := a + [x] + b;
    forall r ensures TiedWith(less, t, r) == TiedWith(less, s + [x], r) {
      InsertKeepsTies(less, a, x, b, r);
    }
    InsertAscends(less, s, j, x);
  }

  lemma InsertAscends<T(!new)>(less: (T, T) -> bool, s: seq<T>, j: nat, x: T)
    requires StrictWeak(less) && Ascending(less, s) && j <= |s|
    requires forall k :: j <= k < |s| ==> less(x, s[k])
    requires j > 0 ==> !less(x, s[j - 1])
    ensures Ascending(less, s[..j] + [x] + s[j..])
  {
    var t := s[..j] + [x] + s[j..];
    forall k | 0 <= k < j ensures !less(x, s[k]) {
      assert k < j - 1 ==> !less(s[j - 1], s[k]);
    }
    forall i, k | 0 <= i < k < |t| ensures !less(t[k], t[i]) {
      assert t[k] == if k < j then s[k] else if k == j then x else s[k - 1];
      assert t[i] == if i < j then s[i] else if i == j then x else s[i - 1];
    }
  }

  /** Sort a sequence stably. */
  method Sort<T(!new)>(less: (T, T) -> bool, s: seq<T>) returns (t: seq<T>)
    requires StrictWeak(less)
    ensures SortedOnce(less, s, t) && multiset(t) == multiset(s)
  {
    t := [];
    for i := 0 to |s|
      invariant SortedOnce(less, s[..i], t) && multiset(t) == multiset(s[..i])
    {
      assert s[..i + 1] == s[..i] + [s[i]];
      forall r ensures TiedWith(less, t + [s[i]], r) == TiedWith(less, s[..i + 1], r) {
        TiedWithAppend(less, t, [s[i]], r);
        TiedWithAppend(less, s[..i], [s[i]], r);
      }
      t := Insert(less, t, s[i]);
    }
    assert s[..|s|] == s;
  }

  /** The first elements of two stable sorts of the same sequence agree. */
  lemma SameFirst<T(!new)>(less: (T, T) -> bool, t: seq<T>, u: seq<T>)
    requires StrictWeak(less) && Ascending(less, t) && Ascending(less, u)
    requires forall r :: TiedWith(less, t, r) == TiedWith(less, u, r)
    requires t != [] && u != []
    ensures t[0] == u[0]
  {
    assert !less(t[0], t[0]) && !less(u[0], u[0]);
    assert TiedWith(less, t, t[0])[0] == t[0];
    assert TiedWith(less, u, u[0])[0] == u[0];
    TiedMember(less, u, t[0]);
    var i :| 0 <= i < |u| && Tied(less, u[i], t[0]);
    TiedMember(less, t, u[0]);
    var j :| 0 <= j < |t| && Tied(less, t[j], u[0]);
    assert !less(u[i], u[0]) && !less(t[j], t[0]);
    assert !less(t[0], u[0]) && !less(u[0], t[0]);
    assert TiedWith(less, u, t[0])[0] == u[0];
  }

  lemma OwnTies<T(!new)>(less: (T, T) -> bool, t: seq<T>)
    requires StrictWeak(less) && t != []
    ensures TiedWith(less, t, t[0]) != []
  {
  }

  /** A stable sort has one result. */
  lemma {:induction false} SortDetermined<T(!new)>(less: (T, T) -> bool, t: seq<T>, u: seq<T>)
    requires StrictWeak(less) && Ascending(less, t) && Ascending(less, u)
    requires forall r :: TiedWith(less, t, r) == TiedWith(less, u, r)
    ensures t == u
  {
    if t != [] {
      OwnTies(less, t);
    }
    if u != [] {
      OwnTies(less, u);
    }
    if t != [] && u != [] {
      SameFirst(less, t, u);
      forall r ensures TiedWith(less, t[1..], r) == TiedWith(less, u[1..], r) {
        assert TiedWith(less, t, r) == TiedWith(less, u, r);
        if Tied(less, t[0], r) {
          assert TiedWith(less, t, r)[1..] == TiedWith(less, t[1..], r);
          assert TiedWith(less, u, r)[1..] == TiedWith(less, u[1..], r);
        }
      }
      SortDetermined(less, t[1..], u[1..]);
    }
  }
}
