/** sort.Slice by a string key. The algorithm is not stable, so all that is
    known of its result is that it is an ordered permutation of the input. */
module Sorting {
  import opened Text

  /** The key of sort.Strings. */
  function Identity(s: string): string {
    s
  }

  ghost predicate SortedBy<T>(s: seq<T>, key: T -> string) {
    forall i, j :: 0 <= i < j < |s| ==> !Less(key(s[j]), key(s[i]))
  }

  ghost predicate DistinctKeys<T>(s: seq<T>, key: T -> string) {
    forall i, j :: 0 <= i < j < |s| ==> key(s[i]) != key(s[j])
  }

  /** Where the insertion of x goes: nothing before it is greater, and everything
      from it on is. */
  ghost predicate Splits<T>(s: seq<T>, i: nat, x: T, key: T -> string) {
    && i <= |s|
    && (forall j :: 0 <= j < i ==> !Less(key(x), key(s[j])))
    && (forall j :: i <= j < |s| ==> !Less(key(s[j]), key(x)))
  }

  lemma SplitFound<T>(s: seq<T>, i: nat, x: T, key: T -> string)
    requires SortedBy(s, key) && i <= |s|
    requires forall j :: 0 <= j < i ==> !Less(key(x), key(s[j]))
    requires i < |s| ==> Less(key(x), key(s[i]))
    ensures Splits(s, i, x, key)
  {
    forall j | i <= j < |s| ensures !Less(key(s[j]), key(x)) {
      var (a, b, c) := (key(x), key(s[i]), key(s[j]));
      LessTotal(b, c);
      assert i < j ==> !Less(key(s[j]), key(s[i]));
      LessIrreflexive(b);
      if Less(c, a) { LessTransitive(c, a, b); }
    }
  }

  lemma InsertKeepsOrder<T>(s: seq<T>, i: nat, x: T, key: T -> string)
    requires SortedBy(s, key) && Splits(s, i, x, key)
    ensures SortedBy(s[..i] + [x] + s[i..], key)
    ensures multiset(s[..i] + [x] + s[i..]) == multiset(s) + multiset{x}
  {
    assert s == s[..i] + s[i..];
    var r := s[..i] + [x] + s[i..];
    LessIrreflexive(key(x));
    forall m, n | 0 <= m < n < |r| ensures !Less(key(r[n]), key(r[m])) {
      assert m < i ==> r[m] == s[m];
      assert m > i ==> r[m] == s[m - 1];
      assert n < i ==> r[n] == s[n];
      assert n > i ==> r[n] == s[n - 1];
    }
  }

  method Insert<T>(s: seq<T>, x: T, key: T -> string) returns (r: seq<T>)
    requires SortedBy(s, key)
    ensures SortedBy(r, key) && multiset(r) == multiset(s) + multiset{x}
  {
    var i := 0;
    while i < |s| && !Less(key(x), key(s[i]))
      invariant 0 <= i <= |s|
      invariant forall j :: 0 <= j < i ==> !Less(key(x), key(s[j]))
    {
      i := i + 1;
    }
    SplitFound(s, i, x, key);
    InsertKeepsOrder(s, i, x, key);
    r := s[..i] + [x] + s[i..];
  }

  method SortBy<T>(s: seq<T>, key: T -> string) returns (r: seq<T>)
    ensures SortedBy(r, key) && multiset(r) == multiset(s)
  {
    r := [];
    for i := 0 to |s|
      invariant SortedBy(r, key) && multiset(r) == multiset(s[..i])
    {
      assert s[..i + 1] == s[..i] + [s[i]];
      r := Insert(r, s[i], key);
    }
    assert s[..|s|] == s;
  }

  lemma PermutationSameElements<T>(a: seq<T>, b: seq<T>)
    requires multiset(a) == multiset(b)
    ensures |a| == |b|
    ensures forall x :: x in a <==> x in b
  {
    assert |multiset(a)| == |a| && |multiset(b)| == |b|;
    forall x ensures x in a <==> x in b {
      assert x in a <==> x in multiset(a);
      assert x in b <==> x in multiset(b);
    }
  }

  /** Taking one list apart takes the other apart too. */
  lemma SameButOne<T>(a: seq<T>, b: seq<T>) returns (i: nat)
    requires multiset(a) == multiset(b) && a != []
    ensures i < |b| && b[i] == a[|a| - 1]
    ensures multiset(a[..|a| - 1]) == multiset(b[..i] + b[i + 1..])
  {
    var most, last := a[..|a| - 1], a[|a| - 1];
    PermutationSameElements(a, b);
    assert last in a;
    i :| 0 <= i < |b| && b[i] == last;
    assert a == most + [last];
    assert b == b[..i] + [last] + b[i + 1..];
    assert multiset(most) == multiset(a) - multiset{last};
  }

  lemma SameLeast<T>(a: seq<T>, b: seq<T>, key: T -> string)
    requires |a| > 0 && multiset(a) == multiset(b)
    requires SortedBy(a, key) && SortedBy(b, key) && DistinctKeys(a, key)
    ensures |b| > 0 && a[0] == b[0]
  {
    PermutationSameElements(a, b);
    assert b[0] in a && a[0] in b;
    var i :| 0 <= i < |a| && a[i] == b[0];
    var j :| 0 <= j < |b| && b[j] == a[0];
    LessTotal(key(a[0]), key(a[i]));
    assert i == 0 || j == 0;
  }

  lemma TailMultiset<T>(a: seq<T>)
    requires |a| > 0
    ensures multiset(a[1..]) == multiset(a) - multiset{a[0]}
  {
    assert a == [a[0]] + a[1..];
  }

  /** With distinct keys there is only one ordered permutation, so an unstable
      sort has a single result. */
  lemma {:induction false} SortedUnique<T>(a: seq<T>, b: seq<T>, key: T -> string)
    requires multiset(a) == multiset(b)
    requires SortedBy(a, key) && SortedBy(b, key)
    requires DistinctKeys(a, key)
    ensures a == b
    decreases |a|
  {
    PermutationSameElements(a, b);
    if a != [] {
      SameLeast(a, b, key);
      TailMultiset(a);
      TailMultiset(b);
      SortedUnique(a[1..], b[1..], key);
      assert a == [a[0]] + a[1..] && b == [b[0]] + b[1..];
    }
  }

  lemma NoLess(a: seq<string>, s: string)
    requires SortedBy(a, Identity) && s in a
    ensures !Less(s, a[0])
  {
    var i :| 0 <= i < |a| && a[i] == s;
    assert i > 0 ==> !Less(Identity(a[i]), Identity(a[0]));
    LessIrreflexive(a[0]);
  }

  lemma SameSmallest(a: seq<string>, b: seq<string>)
    requires multiset(a) == multiset(b) && SortedBy(a, Identity) && SortedBy(b, Identity) && a != []
    ensures b != [] && a[0] == b[0]
  {
    PermutationSameElements(a, b);
    assert b[0] in b && a[0] in a;
    NoLess(a, b[0]);
    NoLess(b, a[0]);
    LessTotal(a[0], b[0]);
  }

  lemma SortedTail<T>(a: seq<T>, key: T -> string)
    requires SortedBy(a, key) && a != []
    ensures SortedBy(a[1..], key)
  {}

  /** Of strings, even repeated ones, there is only one ordered permutation. */
  lemma {:induction false} SortedStringsUnique(a: seq<string>, b: seq<string>)
    requires multiset(a) == multiset(b) && SortedBy(a, Identity) && SortedBy(b, Identity)
    ensures a == b
    decreases |a|
  {
    PermutationSameElements(a, b);
    if a != [] {
      hide *;
      SameSmallest(a, b);
      SortedTail(a, Identity);
      SortedTail(b, Identity);
      TailMultiset(a);
      TailMultiset(b);
      SortedStringsUnique(a[1..], b[1..]);
      assert a == [a[0]] + a[1..] && b == [b[0]] + b[1..];
    }
  }

  /** Distinctness is a property of the elements, not of their order. */
  lemma DistinctPermutation<T>(a: seq<T>, b: seq<T>, key: T -> string)
    requires multiset(a) == multiset(b) && DistinctKeys(a, key)
    ensures DistinctKeys(b, key)
  {
    PermutationSameElements(a, b);
    forall i, j | 0 <= i < j < |b| ensures key(b[i]) != key(b[j]) {
      if key(b[i]) == key(b[j]) {
        assert b[i] in a && b[j] in a;
        var m :| 0 <= m < |a| && a[m] == b[i];
        var n :| 0 <= n < |a| && a[n] == b[j];
        assert m == n;
        TwiceInMultiset(b, i, j);
        OnceInMultiset(a, m, key);
      }
    }
  }

  lemma TwiceInMultiset<T>(b: seq<T>, i: nat, j: nat)
    requires i < j < |b| && b[i] == b[j]
    ensures multiset(b)[b[i]] >= 2
  {
    assert b == b[..i] + [b[i]] + b[i + 1..];
    assert b[j] in b[i + 1..] by { assert b[i + 1..][j - i - 1] == b[j]; }
  }

  lemma OnceInMultiset<T>(a: seq<T>, m: nat, key: T -> string)
    requires m < |a| && DistinctKeys(a, key)
    ensures multiset(a)[a[m]] == 1
  {
    assert a == a[..m] + [a[m]] + a[m + 1..];
    assert a[m] !in a[..m];
    assert a[m] !in a[m + 1..];
  }
}

/** Go maps used as sets. */
module Sets {
  /** Why comparing sizes and looking in one direction is enough. */
  lemma SubsetOfSameSize<T>(a: set<T>, b: set<T>)
    requires a <= b && |a| == |b|
    ensures a == b
  {
    assert b == a + (b - a);
    assert |b| == |a| + |b - a|;
  }
}
