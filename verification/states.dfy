/**
 * The `State` class: one declaration (id, salt module, function, keyword
 * arguments), how its requisite arguments are normalised, and how it
 * serialises itself.
 */
module States {
  import opened Wrappers
  import opened OrderedMaps
  import opened KeyOrder
  import opened Values

  datatype State = State(id: string, mod: string, func: string, kwargs: Kwargs)

  /** `full_func`: the salt function name `mod.func`. */
  function FullFunc(s: State): (r: string)
    ensures |r| == |s.mod| + 1 + |s.func|
    ensures r[..|s.mod|] == s.mod && r[|s.mod|] == '.' && r[|s.mod| + 1..] == s.func
  {
    s.mod + "." + s.func
  }

  /** One element of a requisite list: a StateRequisite object becomes its record. */
  function AsRecord(v: Value): (r: Value)
    ensures !r.Req?
    ensures !v.Req? ==> r == v
    ensures v.Req? ==> r == Dict([(v.req.mod, Str(v.req.id))])
  {
    if v.Req? then Record(v.req) else v
  }

  /** A requisite argument as `attrs` leaves it: always a list, with no StateRequisite objects left in it. */
  function AsRequisiteList(v: Value): (r: Value)
    ensures r.List?
    ensures |r.items| == if v.List? then |v.items| else 1
    ensures forall j :: 0 <= j < |r.items| ==> !r.items[j].Req?
    ensures v.List? ==> forall j :: 0 <= j < |v.items| ==> r.items[j] == AsRecord(v.items[j])
    ensures !v.List? ==> r.items == [AsRecord(v)]
  {
    var items := if v.List? then v.items else [v];
    List(seq(|items|, j requires 0 <= j < |items| => AsRecord(items[j])))
  }

  /** The in-place rewrite `attrs` applies to the keyword arguments. */
  function Normalise(kw: Kwargs): (r: Kwargs)
    ensures Keys(r) == Keys(kw)
    ensures forall i :: 0 <= i < |kw| && kw[i].0 !in REQUISITES ==> r[i] == kw[i]
    ensures forall i :: 0 <= i < |kw| && kw[i].0 in REQUISITES ==> r[i].1 == AsRequisiteList(kw[i].1)
  {
    seq(|kw|, i requires 0 <= i < |kw| =>
      if kw[i].0 in REQUISITES then (kw[i].0, AsRequisiteList(kw[i].1)) else kw[i])
  }

  /** Normalising already-normalised arguments changes nothing. */
  lemma NormaliseIdempotent(kw: Kwargs)
    ensures Normalise(Normalise(kw)) == Normalise(kw)
  {
    var n := Normalise(kw);
    forall i | 0 <= i < |kw| && kw[i].0 in REQUISITES
      ensures AsRequisiteList(n[i].1) == n[i].1
    {
      var items := n[i].1.items;
      assert AsRequisiteList(n[i].1).items == items;
    }
  }

  /** Entries of two listings with equal multisets are the same entries. */
  lemma SameEntries(a: seq<(string, Value)>, b: seq<(string, Value)>)
    requires multiset(a) == multiset(b)
    ensures |a| == |b|
    ensures forall i :: 0 <= i < |a| ==> a[i] in b
    ensures forall i :: 0 <= i < |b| ==> b[i] in a
  {
    assert |a| == |multiset(a)| == |multiset(b)| == |b|;
    forall i | 0 <= i < |a|
      ensures a[i] in b
    {
      assert a[i] in multiset(b);
    }
    forall i | 0 <= i < |b|
      ensures b[i] in a
    {
      assert b[i] in multiset(a);
    }
  }

  /** Each entry as a one-key dict, in the same order. */
  function Singletons(p: seq<(string, Value)>): (r: seq<Value>)
    ensures |r| == |p|
    ensures forall i :: 0 <= i < |p| ==> r[i] == Dict([p[i]])
  {
    seq(|p|, i requires 0 <= i < |p| => Dict([p[i]]))
  }

  /** `attrs`: one single-key dict per keyword argument, sorted by key. */
  function Attrs(kw: Kwargs): (r: seq<Value>)
    ensures |r| == |kw|
    ensures forall i :: 0 <= i < |r| ==> r[i].Dict? && |r[i].entries| == 1
    ensures forall i, j :: 0 <= i < j < |r| ==> Below(r[i].entries[0].0, r[j].entries[0].0)
    ensures forall i :: 0 <= i < |r| ==> r[i].entries[0] in Normalise(kw)
    ensures forall i :: 0 <= i < |kw| ==> exists j :: 0 <= j < |r| && r[j].entries[0] == Normalise(kw)[i]
  {
    var n := Normalise(kw);
    var sorted := SortByKey(n);
    SameEntries(sorted, n);
    Singletons(sorted)
  }

  /** The sorted order is the only one: `attrs` equals any key-ascending listing of the normalised arguments. */
  lemma AttrsIsTheSortedListing(kw: Kwargs, listing: seq<(string, Value)>)
    requires StrictlySorted(listing)
    requires multiset(listing) == multiset(Normalise(kw))
    ensures Attrs(kw) == Singletons(listing)
  {
    SortedUnique(listing, SortByKey(Normalise(kw)));
  }

  /** Because `attrs` normalises in place, a second call sees normalised arguments and gives the same list. */
  lemma AttrsTwice(kw: Kwargs)
    ensures Attrs(Normalise(kw)) == Attrs(kw)
  {
    NormaliseIdempotent(kw);
  }

  /** `State()`: `{mod.func: attrs}`. */
  function Call(s: State): (r: Value)
    ensures r.Dict? && Keys(r.entries) == [FullFunc(s)]
    ensures Get(r.entries, FullFunc(s)) == Some(List(Attrs(s.kwargs)))
  {
    Dict([(FullFunc(s), List(Attrs(s.kwargs)))])
  }

  /** The requisite a State pushes when used as a scope guard: a `require` edge to itself. */
  function Guard(s: State): (r: StateRequisite)
    ensures r.relation == "require"
    ensures Record(r) == Dict([(s.mod, Str(s.id))])
  {
    StateRequisite("require", s.mod, s.id)
  }
}
