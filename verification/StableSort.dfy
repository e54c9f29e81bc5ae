/** Python's `sorted`: a stable sort by a key comparison. */
module StableSort {

  ghost predicate TotalPreorder<T(!new)>(le: (T, T) -> bool) {
    && (forall x, y :: le(x, y) || le(y, x))
    && (forall x, y, z :: le(x, y) && le(y, z) ==> le(x, z))
  }

  ghost predicate Sorted<T>(s: seq<T>, le: (T, T) -> bool) {
    forall i, j :: 0 <= i < j < |s| ==> le(s[i], s[j])
  }

  /** Places `x` before the first element it is not greater than. */
  function Insert<T>(x: T, s: seq<T>, le: (T, T) -> bool): (r: seq<T>)
    ensures multiset(r) == multiset{x} + multiset(s)
  {
    if s == [] then [x]
    else if le(x, s[0]) then [x] + s
    else
      assert s == [s[0]] + s[1..];
      [s[0]] + Insert(x, s[1..], le)
  }

  function SortBy<T>(s: seq<T>, le: (T, T) -> bool): (r: seq<T>)
    ensures multiset(r) == multiset(s)
    ensures |r| == |s|
  {
    if s == [] then []
    else
      assert s == [s[0]] + s[1..];
      var r := Insert(s[0], SortBy(s[1..], le), le);
      assert |r| == |multiset(r)| == |multiset(s)| == |s|;
      r
  }

  lemma {:induction false} InsertSorted<T(!new)>(x: T, s: seq<T>, le: (T, T) -> bool)
    requires TotalPreorder(le) && Sorted(s, le)
    ensures Sorted(Insert(x, s, le), le)
  {
    if s != [] && !le(x, s[0]) {
      var rest := Insert(x, s[1..], le);
      InsertSorted(x, s[1..], le);
      forall j | 0 <= j < |rest| ensures le(s[0], rest[j]) {
        assert rest[j] in multiset(rest);
        assert rest[j] == x || rest[j] in s[1..];
      }
    }
  }

  lemma {:induction false} SortBySorted<T(!new)>(s: seq<T>, le: (T, T) -> bool)
    requires TotalPreorder(le)
    ensures Sorted(SortBy(s, le), le)
  {
    if s != [] {
      SortBySorted(s[1..], le);
      InsertSorted(s[0], SortBy(s[1..], le), le);
    }
  }

  /** Sorting moves entries but neither adds nor loses one. */
  lemma SortByKeepsMembers<T>(s: seq<T>, le: (T, T) -> bool)
    ensures forall x :: x in SortBy(s, le) <==> x in s
  {
    forall x ensures x in SortBy(s, le) <==> x in s {
      assert x in multiset(SortBy(s, le)) <==> x in multiset(s);
    }
  }

  predicate Equivalent<T>(a: T, b: T, le: (T, T) -> bool) {
    le(a, b) && le(b, a)
  }

  /** The entries of `s` that compare equal to `x`, in their own order. */
  function Ties<T>(s: seq<T>, x: T, le: (T, T) -> bool): seq<T> {
    if s == [] then [] else Tie(s[0], x, le) + Ties(s[1..], x, le)
  }

  function Tie<T>(y: T, x: T, le: (T, T) -> bool): seq<T> {
    if Equivalent(y, x, le) then [y] else []
  }

  lemma {:induction false} InsertStable<T(!new)>(y: T, s: seq<T>, x: T, le: (T, T) -> bool)
    requires TotalPreorder(le)
    ensures Ties(Insert(y, s, le), x, le) == Ties([y] + s, x, le)
  {
    if s != [] && !le(y, s[0]) {
      InsertStable(y, s[1..], x, le);
      NotBoth(y, s[0], x, le);
      InsertBehind(y, s, x, le);
    }
  }

  /** An entry that goes behind the head of `s` changes the ties as if it had gone before it. */
  lemma InsertBehind<T>(y: T, s: seq<T>, x: T, le: (T, T) -> bool)
    requires s != [] && !le(y, s[0]) && (Tie(y, x, le) == [] || Tie(s[0], x, le) == [])
    requires Ties(Insert(y, s[1..], le), x, le) == Ties([y] + s[1..], x, le)
    ensures Ties(Insert(y, s, le), x, le) == Ties([y] + s, x, le)
  {
    TiesCons(y, s, x, le);
    TiesCons(y, s[1..], x, le);
    TiesCons(s[0], Insert(y, s[1..], le), x, le);
    Exchange(Tie(y, x, le), Tie(s[0], x, le), Ties(s[1..], x, le));
  }

  lemma Exchange<T>(a: seq<T>, b: seq<T>, t: seq<T>)
    requires a == [] || b == []
    ensures a + (b + t) == b + (a + t)
  {
    if a == [] {
      assert a + (b + t) == b + t && a + t == t;
    } else {
      assert b + (a + t) == a + t && b + t == t;
    }
  }

  lemma NotBoth<T(!new)>(a: T, b: T, x: T, le: (T, T) -> bool)
    requires TotalPreorder(le) && !le(a, b)
    ensures Tie(a, x, le) == [] || Tie(b, x, le) == []
  {
  }

  lemma TiesCons<T>(y: T, s: seq<T>, x: T, le: (T, T) -> bool)
    ensures Ties([y] + s, x, le) == Tie(y, x, le) + Ties(s, x, le)
  {
    assert ([y] + s)[1..] == s;
  }

  /** Entries whose keys are equal keep the order they came in. */
  lemma {:induction false} SortByStable<T(!new)>(s: seq<T>, x: T, le: (T, T) -> bool)
    requires TotalPreorder(le)
    ensures Ties(SortBy(s, le), x, le) == Ties(s, x, le)
  {
    if s != [] {
      var rest := SortBy(s[1..], le);
      InsertStable(s[0], rest, x, le);
      SortByStable(s[1..], x, le);
      assert ([s[0]] + rest)[1..] == rest;
    }
  }

  /** An earlier tie of two is the earlier of the two ties. */
  lemma {:induction false} TiesInOrder<T>(s: seq<T>, x: T, le: (T, T) -> bool, i: nat, j: nat) returns (p: nat, q: nat)
    requires i < j < |s| && Equivalent(s[i], x, le) && Equivalent(s[j], x, le)
    ensures p < q < |Ties(s, x, le)| && Ties(s, x, le)[p] == s[i] && Ties(s, x, le)[q] == s[j]
  {
    var first := |Tie(s[0], x, le)|;
    if i == 0 {
      q := TieOf(s[1..], x, le, j - 1);
      p, q := 0, q + 1;
    } else {
      p, q := TiesInOrder(s[1..], x, le, i - 1, j - 1);
      p, q := p + first, q + first;
    }
  }

  lemma {:induction false} TieOf<T>(s: seq<T>, x: T, le: (T, T) -> bool, j: nat) returns (q: nat)
    requires j < |s| && Equivalent(s[j], x, le)
    ensures q < |Ties(s, x, le)| && Ties(s, x, le)[q] == s[j]
  {
    if j == 0 {
      q := 0;
    } else {
      q := TieOf(s[1..], x, le, j - 1);
      q := q + |Tie(s[0], x, le)|;
    }
  }

  /** And where two ties stood before. */
  lemma {:induction false} TiesFromOrder<T>(s: seq<T>, x: T, le: (T, T) -> bool, p: nat, q: nat) returns (i: nat, j: nat)
    requires p < q < |Ties(s, x, le)|
    ensures i < j < |s| && s[i] == Ties(s, x, le)[p] && s[j] == Ties(s, x, le)[q]
  {
    var first := |Tie(s[0], x, le)|;
    if p < first {
      j := TieFrom(s[1..], x, le, q - 1);
      i, j := 0, j + 1;
    } else {
      i, j := TiesFromOrder(s[1..], x, le, p - first, q - first);
      i, j := i + 1, j + 1;
    }
  }

  lemma {:induction false} TieFrom<T>(s: seq<T>, x: T, le: (T, T) -> bool, q: nat) returns (j: nat)
    requires q < |Ties(s, x, le)|
    ensures j < |s| && s[j] == Ties(s, x, le)[q]
  {
    var first := |Tie(s[0], x, le)|;
    if q < first {
      j := 0;
    } else {
      j := TieFrom(s[1..], x, le, q - first);
      j := j + 1;
    }
  }

  /** Of two entries with equal keys the one that sorts first came first. */
  lemma EqualKeysKeepOrder<T(!new)>(s: seq<T>, le: (T, T) -> bool, i: nat, j: nat) returns (a: nat, b: nat)
    requires TotalPreorder(le)
    requires i < j < |SortBy(s, le)| && Equivalent(SortBy(s, le)[i], SortBy(s, le)[j], le)
    ensures a < b < |s| && s[a] == SortBy(s, le)[i] && s[b] == SortBy(s, le)[j]
  {
    var sorted := SortBy(s, le);
    SortByStable(s, sorted[j], le);
    var p, q := TiesInOrder(sorted, sorted[j], le, i, j);
    a, b := TiesFromOrder(s, sorted[j], le, p, q);
  }
}
