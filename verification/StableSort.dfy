/** What a stable sort by a comparison gives, and that it is one thing only. */
module StableSort {
  ghost predicate TotalOrder<T(!new)>(le: (T, T) -> bool) {
    (forall x, y :: le(x, y) || le(y, x)) && forall x, y, z :: le(x, y) && le(y, z) ==> le(x, z)
  }

  ghost predicate Sorted<T>(le: (T, T) -> bool, s: seq<T>) {
    forall i, j :: 0 <= i < j < |s| ==> le(s[i], s[j])
  }

  predicate Ties<T>(le: (T, T) -> bool, x: T, y: T) {
    le(x, y) && le(y, x)
  }

  /** The elements that tie with `p`, in order. */
  function Tied<T>(le: (T, T) -> bool, p: T, s: seq<T>): seq<T> {
    if s == [] then [] else (if Ties(le, p, s[0]) then [s[0]] else []) + Tied(le, p, s[1..])
  }

  /** In order, and elements that tie stay in the order they had. */
  ghost predicate StablySorts<T(!new)>(le: (T, T) -> bool, s: seq<T>, r: seq<T>) {
    Sorted(le, r) && forall p :: Tied(le, p, r) == Tied(le, p, s)
  }

  function Insert<T>(le: (T, T) -> bool, x: T, s: seq<T>): seq<T> {
    if s == [] || le(x, s[0]) then [x] + s else [s[0]] + Insert(le, x, s[1..])
  }

  function Sort<T>(le: (T, T) -> bool, s: seq<T>): seq<T> {
    if s == [] then [] else Insert(le, s[0], Sort(le, s[1..]))
  }

  lemma {:induction false} TiedCons<T>(le: (T, T) -> bool, p: T, x: T, s: seq<T>)
    ensures Tied(le, p, [x] + s) == (if Ties(le, p, x) then [x] else []) + Tied(le, p, s)
  {
    assert ([x] + s)[1..] == s;
  }

  lemma {:induction false} InsertHolds<T(!new)>(le: (T, T) -> bool, x: T, s: seq<T>)
    ensures multiset(Insert(le, x, s)) == multiset(s) + multiset{x}
    decreases |s|
  {
    if s != [] && !le(x, s[0]) {
      InsertHolds(le, x, s[1..]);
      assert s == [s[0]] + s[1..];
    }
  }

  lemma {:induction false} InsertSorts<T(!new)>(le: (T, T) -> bool, x: T, s: seq<T>)
    requires TotalOrder(le) && Sorted(le, s)
    ensures Sorted(le, Insert(le, x, s))
    decreases |s|
  {
    if s != [] && !le(x, s[0]) {
      InsertSorts(le, x, s[1..]);
      InsertHolds(le, x, s[1..]);
      var r := Insert(le, x, s[1..]);
      forall j | 0 <= j < |r|
        ensures le(s[0], r[j])
      {
        assert r[j] in multiset(r);
        if r[j] != x { assert r[j] in s[1..]; }
      }
    }
  }

  lemma {:induction false} InsertKeepsTies<T(!new)>(le: (T, T) -> bool, x: T, s: seq<T>, p: T)
    requires TotalOrder(le)
    ensures Tied(le, p, Insert(le, x, s)) == (if Ties(le, p, x) then [x] else []) + Tied(le, p, s)
    decreases |s|
  {
    if s == [] || le(x, s[0]) {
      TiedCons(le, p, x, s);
    } else {
      InsertKeepsTies(le, x, s[1..], p);
      TiedCons(le, p, s[0], Insert(le, x, s[1..]));
    }
  }

  lemma {:induction false} SortIsStable<T(!new)>(le: (T, T) -> bool, s: seq<T>)
    requires TotalOrder(le)
    ensures StablySorts(le, s, Sort(le, s)) && multiset(Sort(le, s)) == multiset(s)
    decreases |s|
  {
    if s != [] {
      var r := Sort(le, s[1..]);
      SortIsStable(le, s[1..]);
      InsertSorts(le, s[0], r);
      InsertHolds(le, s[0], r);
      assert s == [s[0]] + s[1..];
      forall p
        ensures Tied(le, p, Sort(le, s)) == Tied(le, p, s)
      {
        InsertKeepsTies(le, s[0], r, p);
      }
    }
  }

  lemma {:induction false} TiedIn<T(!new)>(le: (T, T) -> bool, p: T, s: seq<T>)
    ensures forall x :: x in Tied(le, p, s) <==> x in s && Ties(le, p, x)
    decreases |s|
  {
    if s != [] { TiedIn(le, p, s[1..]); }
  }

  lemma {:induction false} SameHead<T(!new)>(le: (T, T) -> bool, a: seq<T>, b: seq<T>)
    requires TotalOrder(le) && Sorted(le, a) && Sorted(le, b) && a != [] && forall p :: Tied(le, p, a) == Tied(le, p, b)
    ensures b != [] && a[0] == b[0]
  {
    TiedIn(le, a[0], a);
    TiedIn(le, a[0], b);
    assert a[0] in Tied(le, a[0], a);
    TiedIn(le, b[0], a);
    TiedIn(le, b[0], b);
    assert b[0] in Tied(le, b[0], b);
    assert Ties(le, a[0], b[0]);
    assert Tied(le, a[0], a)[0] == a[0] && Tied(le, a[0], b)[0] == b[0];
  }

  lemma {:induction false} TiedTail<T>(le: (T, T) -> bool, p: T, s: seq<T>)
    requires s != []
    ensures Ties(le, p, s[0]) ==> Tied(le, p, s) != []
    ensures Tied(le, p, s[1..]) == if Ties(le, p, s[0]) then Tied(le, p, s)[1..] else Tied(le, p, s)
  {
    assert ([s[0]] + Tied(le, p, s[1..]))[1..] == Tied(le, p, s[1..]);
  }

  /** Whatever way it is done, a stable sort has one result. */
  lemma {:induction false} OneStableSort<T(!new)>(le: (T, T) -> bool, a: seq<T>, b: seq<T>)
    requires TotalOrder(le) && Sorted(le, a) && Sorted(le, b) && forall p :: Tied(le, p, a) == Tied(le, p, b)
    ensures a == b
    decreases |a|
  {
    if a == [] {
      if b != [] {
        TiedIn(le, b[0], b);
        assert b[0] in Tied(le, b[0], b);
        assert false;
      }
    } else {
      SameHead(le, a, b);
      forall p
        ensures Tied(le, p, a[1..]) == Tied(le, p, b[1..])
      {
        TiedTail(le, p, a);
        TiedTail(le, p, b);
      }
      OneStableSort(le, a[1..], b[1..]);
      assert a == [a[0]] + a[1..] && b == [b[0]] + b[1..];
    }
  }

  /** A comparison that only differs where the sequence is in order already
      makes no difference. */
  lemma {:induction false} TieBreakIsIdle<T(!new)>(le: (T, T) -> bool, le': (T, T) -> bool, s: seq<T>)
    requires forall i, j :: 0 <= i < j < |s| ==> le(s[i], s[j]) == le'(s[i], s[j])
    ensures Sort(le, s) == Sort(le', s)
    decreases |s|
  {
    if s != [] {
      TieBreakIsIdle(le, le', s[1..]);
      SortHolds(le, s[1..]);
      SameInsert(le, le', s[0], Sort(le, s[1..]), s);
    }
  }

  lemma {:induction false} SortHolds<T(!new)>(le: (T, T) -> bool, s: seq<T>)
    ensures multiset(Sort(le, s)) == multiset(s)
    decreases |s|
  {
    if s != [] {
      SortHolds(le, s[1..]);
      InsertHolds(le, s[0], Sort(le, s[1..]));
      assert s == [s[0]] + s[1..];
    }
  }

  lemma {:induction false} SameInsert<T(!new)>(le: (T, T) -> bool, le': (T, T) -> bool, x: T, r: seq<T>, s: seq<T>)
    requires s != [] && x == s[0] && multiset(r) <= multiset(s[1..])
    requires forall i, j :: 0 <= i < j < |s| ==> le(s[i], s[j]) == le'(s[i], s[j])
    ensures Insert(le, x, r) == Insert(le', x, r)
    decreases |r|
  {
    if r != [] {
      assert r[0] in multiset(r);
      assert r[0] in s[1..];
      var j :| 0 <= j < |s[1..]| && s[1..][j] == r[0];
      assert s[j + 1] == r[0];
      assert r == [r[0]] + r[1..];
      SameInsert(le, le', x, r[1..], s);
    }
  }

  // ----- Keys -----

  ghost predicate KeysApart<T, K(!new)>(s: seq<T>, key: T -> K) {
    forall i, j :: 0 <= i < j < |s| ==> key(s[i]) != key(s[j])
  }

  lemma {:induction false} InsertKeepsApart<T(!new), K(!new)>(le: (T, T) -> bool, x: T, s: seq<T>, key: T -> K)
    requires KeysApart(s, key) && forall y :: y in s ==> key(y) != key(x)
    ensures KeysApart(Insert(le, x, s), key)
    decreases |s|
  {
    if s != [] && !le(x, s[0]) {
      var r := Insert(le, x, s[1..]);
      assert KeysApart(s[1..], key);
      InsertKeepsApart(le, x, s[1..], key);
      InsertHolds(le, x, s[1..]);
      forall j | 0 <= j < |r|
        ensures key(r[j]) != key(s[0])
      {
        assert r[j] in multiset(r);
        if r[j] != x {
          assert r[j] in s[1..];
          var k :| 0 <= k < |s[1..]| && s[1..][k] == r[j];
          assert s[k + 1] == r[j];
        }
      }
    }
  }

  /** Sorting keeps keys apart. */
  lemma {:induction false} SortKeepsApart<T(!new), K(!new)>(le: (T, T) -> bool, s: seq<T>, key: T -> K)
    requires KeysApart(s, key)
    ensures KeysApart(Sort(le, s), key)
    decreases |s|
  {
    if s != [] {
      var r := Sort(le, s[1..]);
      assert KeysApart(s[1..], key);
      SortKeepsApart(le, s[1..], key);
      SortHolds(le, s[1..]);
      forall y | y in r
        ensures key(y) != key(s[0])
      {
        assert y in multiset(r);
        assert y in s[1..];
        var k :| 0 <= k < |s[1..]| && s[1..][k] == y;
        assert s[k + 1] == y;
      }
      InsertKeepsApart(le, s[0], r, key);
    }
  }
}
