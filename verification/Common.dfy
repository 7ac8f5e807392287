/** Small shared types: an option type, calendar dates, and sorted listings of finite sets. */
module Common {

  datatype Option<+T> = None | Some(value: T)

  /** A calendar date as a day number; ISO dates compare the way their day numbers do. */
  type Date = int

  /** A symbol as its rank in the lexicographic order of symbol texts. */
  type Symbol = int

  function Max(a: real, b: real): real {
    if a >= b then a else b
  }

  function Abs(a: real): real {
    if a >= 0.0 then a else -a
  }

  function MinOf(s: set<int>): (m: int)
    requires s != {}
    ensures m in s && forall x | x in s :: m <= x
  {
    MinExists(s);
    var m :| m in s && forall x | x in s :: m <= x;
    m
  }

  ghost function Pick<T>(s: set<T>): (x: T)
    requires s != {}
    ensures x in s
  {
    var y :| y in s;
    y
  }

  lemma {:induction false} MinExists(s: set<int>)
    requires s != {}
    ensures exists m :: m in s && forall x | x in s :: m <= x
    decreases |s|
  {
    var y := Pick(s);
    var rest := s - {y};
    if rest == {} {
      forall x | x in s ensures y <= x {
        assert x == y || x in rest;
      }
    } else {
      MinExists(rest);
      var m :| m in rest && forall x | x in rest :: m <= x;
      var least := if y <= m then y else m;
      forall x | x in s ensures least <= x {
        assert x == y || x in rest;
      }
      assert least in s;
    }
  }

  /** Python's `sorted` over a set. */
  function Sorted(s: set<int>): (r: seq<int>)
    ensures forall x :: x in r <==> x in s
  {
    if s == {} then [] else [MinOf(s)] + Sorted(s - {MinOf(s)})
  }

  lemma {:induction false} SortedAscends(s: set<int>)
    ensures |Sorted(s)| == |s|
    ensures forall i, j | 0 <= i < j < |Sorted(s)| :: Sorted(s)[i] < Sorted(s)[j]
  {
    if s != {} {
      var rest := s - {MinOf(s)};
      SortedAscends(rest);
      forall j | 0 <= j < |Sorted(rest)| ensures MinOf(s) < Sorted(rest)[j] {
        assert Sorted(rest)[j] in rest;
      }
    }
  }

  /** Two different places of a list can be found again, at different places, in any permutation of it. */
  lemma TwoPlaces<T>(t: seq<T>, s: seq<T>, i: nat, j: nat)
    requires multiset(s) == multiset(t)
    requires i < j < |t|
    ensures exists a, b :: 0 <= a < |s| && 0 <= b < |s| && a != b && s[a] == t[i] && s[b] == t[j]
  {
    assert t[i] in multiset(s);
    var a :| 0 <= a < |s| && s[a] == t[i];
    WithoutOne(s, a);
    WithoutOne(t, i);
    var tRest := t[..i] + t[i + 1..];
    assert tRest[j - 1] == t[j];
    assert t[j] in multiset(tRest);
    var sRest := s[..a] + s[a + 1..];
    assert t[j] in multiset(sRest);
    var c :| 0 <= c < |sRest| && sRest[c] == t[j];
    var b := if c < a then c else c + 1;
    assert s[b] == t[j];
  }

  lemma WithoutOne<T>(s: seq<T>, a: nat)
    requires a < |s|
    ensures multiset(s[..a] + s[a + 1..]) == multiset(s) - multiset{s[a]}
  {
    assert s == s[..a] + [s[a]] + s[a + 1..];
  }

  lemma SmallerSet<T>(a: set<T>, b: set<T>)
    requires a <= b
    ensures |a| <= |b|
  {
    assert b == a + (b - a);
  }

  // ----- Python's `sorted` with a key

  ghost predicate AscendingBy<T>(key: T -> real, s: seq<T>) {
    forall i, j | 0 <= i < j < |s| :: key(s[i]) <= key(s[j])
  }

  /** Sorts by a key; elements with equal keys keep their order. */
  method SortedBy<T>(key: T -> real, s: seq<T>) returns (sorted: seq<T>)
    ensures multiset(sorted) == multiset(s) && |sorted| == |s| && AscendingBy(key, sorted)
  {
    hide AscendingBy;
    sorted := [];
    assert AscendingBy(key, []) by {
      NothingAscends(key);
    }
    for n := 0 to |s|
      invariant multiset(sorted) == multiset(s[..n]) && |sorted| == n && AscendingBy(key, sorted)
    {
      var k := PlaceFor(key, sorted, s[n]);
      InsertedInPlace(key, sorted, k, s[n]);
      OneLonger(s, n);
      sorted := sorted[..k] + [s[n]] + sorted[k..];
    }
    assert s[..|s|] == s;
  }

  /** Behind everything that is not larger. */
  method PlaceFor<T>(key: T -> real, sorted: seq<T>, x: T) returns (k: nat)
    ensures k <= |sorted| && forall i | k <= i < |sorted| :: key(sorted[i]) > key(x)
    ensures k > 0 ==> key(sorted[k - 1]) <= key(x)
  {
    k := |sorted|;
    while k > 0 && key(sorted[k - 1]) > key(x)
      invariant k <= |sorted| && forall i | k <= i < |sorted| :: key(sorted[i]) > key(x)
    {
      k := k - 1;
    }
  }

  lemma NothingAscends<T>(key: T -> real)
    ensures AscendingBy(key, [])
  {
  }

  lemma OneLonger<T>(s: seq<T>, n: nat)
    requires n < |s|
    ensures multiset(s[..n + 1]) == multiset(s[..n]) + multiset{s[n]}
  {
    assert s[..n + 1] == s[..n] + [s[n]];
  }

  lemma InsertedInPlace<T>(key: T -> real, sorted: seq<T>, k: nat, x: T)
    requires AscendingBy(key, sorted) && k <= |sorted| && forall i | k <= i < |sorted| :: key(sorted[i]) > key(x)
    requires k > 0 ==> key(sorted[k - 1]) <= key(x)
    ensures AscendingBy(key, sorted[..k] + [x] + sorted[k..])
    ensures multiset(sorted[..k] + [x] + sorted[k..]) == multiset(sorted) + multiset{x}
  {
    var longer := sorted[..k] + [x] + sorted[k..];
    forall i | 0 <= i < k ensures key(sorted[i]) <= key(x) {
      assert key(sorted[i]) <= key(sorted[k - 1]);
    }
    forall i, j | 0 <= i < j < |longer| ensures key(longer[i]) <= key(longer[j]) {
      assert i < k ==> longer[i] == sorted[i];
      assert i > k ==> longer[i] == sorted[i - 1];
      assert j < k ==> longer[j] == sorted[j];
      assert j > k ==> longer[j] == sorted[j - 1];
    }
    InsertedMembers(sorted, k, x);
  }

  lemma InsertedMembers<T>(sorted: seq<T>, k: nat, x: T)
    requires k <= |sorted|
    ensures multiset(sorted[..k] + [x] + sorted[k..]) == multiset(sorted) + multiset{x}
  {
    assert sorted == sorted[..k] + sorted[k..];
  }

  // ----- lists without repetition

  function Elements<T>(s: seq<T>): set<T> {
    set x | x in s
  }

  ghost predicate NoRepetition<T>(s: seq<T>) {
    forall i, j | 0 <= i < j < |s| :: s[i] != s[j]
  }

  /** A list repeats nothing exactly when it has as many elements as places. */
  lemma {:induction false} NoRepetitionExactly<T>(s: seq<T>)
    ensures |Elements(s)| <= |s|
    ensures NoRepetition(s) <==> |Elements(s)| == |s|
  {
    if s == [] {
      assert Elements(s) == {};
    } else {
      var n := |s| - 1;
      NoRepetitionExactly(s[..n]);
      assert s == s[..n] + [s[n]];
      assert Elements(s) == Elements(s[..n]) + {s[n]};
      OneMoreUnrepeated(s);
    }
  }

  lemma OneMoreUnrepeated<T>(s: seq<T>)
    requires s != []
    ensures NoRepetition(s) <==> NoRepetition(s[..|s| - 1]) && s[|s| - 1] !in Elements(s[..|s| - 1])
  {
    var n := |s| - 1;
    if s[n] in Elements(s[..n]) {
      var i :| 0 <= i < n && s[..n][i] == s[n];
      assert s[i] == s[n];
    }
    if NoRepetition(s[..n]) {
      forall i, j | 0 <= i < j < n ensures s[i] != s[j] {
        assert s[..n][i] != s[..n][j];
      }
    }
    forall i | 0 <= i < n ensures s[i] in Elements(s[..n]) {
      assert s[..n][i] == s[i];
    }
  }
}
