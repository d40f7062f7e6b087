/**
 * Python's ordering of `str` keys (code point by code point, a proper
 * prefix first) and the key sort that `sorted(kwargs.iterkeys())` performs.
 */
module KeyOrder {
  import opened OrderedMaps

  /** `a < b` on Python strings. */
  predicate Below(a: string, b: string)
  {
    if |a| == 0 then |b| > 0
    else if |b| == 0 then false
    else if a[0] != b[0] then a[0] < b[0]
    else Below(a[1..], b[1..])
  }

  lemma {:induction false} BelowIrreflexive(a: string)
    ensures !Below(a, a)
  {
    if |a| > 0 {
      BelowIrreflexive(a[1..]);
    }
  }

  lemma {:induction false} BelowTransitive(a: string, b: string, c: string)
    requires Below(a, b) && Below(b, c)
    ensures Below(a, c)
  {
    if |a| > 0 && |b| > 0 && |c| > 0 && a[0] == b[0] && b[0] == c[0] {
      BelowTransitive(a[1..], b[1..], c[1..]);
    }
  }

  /** Distinct strings are always comparable. */
  lemma {:induction false} BelowTotal(a: string, b: string)
    requires a != b
    ensures Below(a, b) || Below(b, a)
  {
    if |a| > 0 && |b| > 0 && a[0] == b[0] {
      assert a == [a[0]] + a[1..] && b == [b[0]] + b[1..];
      BelowTotal(a[1..], b[1..]);
    }
  }

  /** Keys strictly ascending (so, in particular, unique). */
  predicate StrictlySorted<V>(s: seq<(string, V)>)
  {
    forall i, j :: 0 <= i < j < |s| ==> Below(s[i].0, s[j].0)
  }

  /** Insert one entry into a sorted list at the place its key belongs. */
  function Insert<V>(p: (string, V), s: seq<(string, V)>): (r: seq<(string, V)>)
    requires StrictlySorted(s)
    requires forall i :: 0 <= i < |s| ==> s[i].0 != p.0
    ensures StrictlySorted(r)
    ensures multiset(r) == multiset(s) + multiset{p}
  {
    if s == [] then [p]
    else if Below(p.0, s[0].0) then
      PrependSorted(p, s);
      [p] + s
    else
      BelowTotal(p.0, s[0].0);
      SortedTail(s);
      assert forall i :: 0 <= i < |s[1..]| ==> s[1..][i] == s[i + 1];
      var rest := Insert(p, s[1..]);
      ConsSorted(s, p, rest);
      assert s == [s[0]] + s[1..];
      [s[0]] + rest
  }

  /** A key below the head of a sorted list may go in front of it. */
  lemma PrependSorted<V>(p: (string, V), s: seq<(string, V)>)
    requires StrictlySorted(s) && s != []
    requires Below(p.0, s[0].0)
    ensures StrictlySorted([p] + s)
  {
    var r := [p] + s;
    forall i, j | 0 <= i < j < |r|
      ensures Below(r[i].0, r[j].0)
    {
      if i == 0 && j > 1 {
        BelowTransitive(p.0, s[0].0, s[j - 1].0);
      }
    }
  }

  /** The head of a sorted list stays in front of the sorted rest with one larger key inserted. */
  lemma ConsSorted<V>(s: seq<(string, V)>, p: (string, V), rest: seq<(string, V)>)
    requires StrictlySorted(s) && s != []
    requires Below(s[0].0, p.0)
    requires StrictlySorted(rest)
    requires multiset(rest) == multiset(s[1..]) + multiset{p}
    ensures StrictlySorted([s[0]] + rest)
  {
    forall j | 0 <= j < |rest|
      ensures Below(s[0].0, rest[j].0)
    {
      assert rest[j] in multiset(rest);
      if rest[j] != p {
        assert rest[j] in multiset(s[1..]);
        var k :| 0 <= k < |s[1..]| && s[1..][k] == rest[j];
        assert s[k + 1] == rest[j];
      }
    }
    var r := [s[0]] + rest;
    forall i, j | 0 <= i < j < |r|
      ensures Below(r[i].0, r[j].0)
    {
      if i == 0 {
        assert r[j] == rest[j - 1];
      } else {
        assert r[i] == rest[i - 1] && r[j] == rest[j - 1];
      }
    }
  }

  /** Insertion sort by key: the order `sorted` puts distinct keys in. */
  function SortByKey<V>(s: seq<(string, V)>): (r: seq<(string, V)>)
    requires UniqueKeys(s)
    ensures StrictlySorted(r)
    ensures multiset(r) == multiset(s)
  {
    if s == [] then []
    else
      UniqueTail(s);
      var rest := SortByKey(s[1..]);
      HeadNotInTail(s, rest);
      assert s == [s[0]] + s[1..];
      Insert(s[0], rest)
  }

  lemma UniqueTail<V>(s: seq<(string, V)>)
    requires UniqueKeys(s) && s != []
    ensures UniqueKeys(s[1..])
  {
    forall i, j | 0 <= i < j < |s[1..]|
      ensures s[1..][i].0 != s[1..][j].0
    {
      assert s[1..][i] == s[i + 1] && s[1..][j] == s[j + 1];
    }
  }

  /** A permutation of the tail of a list with unique keys misses the head's key. */
  lemma HeadNotInTail<V>(s: seq<(string, V)>, rest: seq<(string, V)>)
    requires UniqueKeys(s) && s != []
    requires multiset(rest) == multiset(s[1..])
    ensures forall i :: 0 <= i < |rest| ==> rest[i].0 != s[0].0
  {
    forall i | 0 <= i < |rest|
      ensures rest[i].0 != s[0].0
    {
      assert rest[i] in multiset(s[1..]);
      var k :| 0 <= k < |s[1..]| && s[1..][k] == rest[i];
      assert s[k + 1] == rest[i];
    }
  }

  lemma SortedTail<V>(s: seq<(string, V)>)
    requires StrictlySorted(s) && s != []
    ensures StrictlySorted(s[1..])
  {
    forall i, j | 0 <= i < j < |s| - 1
      ensures Below(s[1..][i].0, s[1..][j].0)
    {
      assert s[1..][i] == s[i + 1] && s[1..][j] == s[j + 1];
    }
  }

  /** Strictly sorted lists with the same entries start with the same entry. */
  lemma SortedSameHead<V>(a: seq<(string, V)>, b: seq<(string, V)>)
    requires StrictlySorted(a) && StrictlySorted(b)
    requires multiset(a) == multiset(b)
    requires a != [] && b != []
    ensures a[0] == b[0]
  {
    if a[0] != b[0] {
      assert a[0] in multiset(b);
      var j :| 0 <= j < |b| && b[j] == a[0];
      assert b[0] in multiset(a);
      var i :| 0 <= i < |a| && a[i] == b[0];
      BelowTransitive(a[0].0, b[0].0, a[0].0);
      BelowIrreflexive(a[0].0);
      assert false;
    }
  }

  /** Two strictly sorted lists holding the same entries are the same list. */
  lemma {:induction false} SortedUnique<V>(a: seq<(string, V)>, b: seq<(string, V)>)
    requires StrictlySorted(a) && StrictlySorted(b)
    requires multiset(a) == multiset(b)
    ensures a == b
  {
    assert |a| == |multiset(a)| == |multiset(b)| == |b|;
    if a != [] {
      SortedSameHead(a, b);
      assert a == [a[0]] + a[1..] && b == [b[0]] + b[1..];
      assert multiset(a) == multiset{a[0]} + multiset(a[1..]);
      assert multiset(b) == multiset{b[0]} + multiset(b[1..]);
      assert multiset(a[1..]) == multiset(a) - multiset{a[0]};
      assert multiset(a[1..]) == multiset(b[1..]);
      SortedTail(a);
      SortedTail(b);
      SortedUnique(a[1..], b[1..]);
    }
  }
}
