/**
 * `StateRegistry`: the only mutable state of the renderer, modelled as a
 * value that every operation returns updated.
 */
module Registry {
  import opened Wrappers
  import opened OrderedMaps
  import opened Values
  import opened States

  /** An OrderedDict from state ids to states. */
  type Section = s: seq<(string, State)> | UniqueKeys(s)

  datatype StateRegistry = StateRegistry(
    states: Section,
    requisites: seq<StateRequisite>,   // the scope stack, oldest first
    includes: seq<string>,
    extended: Section)   // the `extends` OrderedDict

  /** `empty()`: the state of a fresh registry. */
  function Empty(): (r: StateRegistry)
    ensures r.states == [] && r.extended == [] && r.includes == [] && r.requisites == []
  {
    StateRegistry([], [], [], [])
  }

  /** `include(*args)`: the names are appended in call order; nothing else changes. */
  function Include(reg: StateRegistry, names: seq<string>): (r: StateRegistry)
    ensures |r.includes| == |reg.includes| + |names|
    ensures r.includes[..|reg.includes|] == reg.includes
    ensures r.includes[|reg.includes|..] == names
    ensures r.states == reg.states && r.extended == reg.extended && r.requisites == reg.requisites
  {
    reg.(includes := reg.includes + names)
  }

  /** `make_extend(name)`: a marker only; the registry is not involved. */
  function MakeExtend(name: string): (r: StateExtend)
    ensures r.name == name
  {
    StateExtend(name)
  }

  /** `push_requisite`: the requisite becomes the top of the stack; nothing else changes. */
  function PushRequisite(reg: StateRegistry, req: StateRequisite): (r: StateRegistry)
    ensures |r.requisites| == |reg.requisites| + 1
    ensures r.requisites[|reg.requisites|] == req
    ensures r.requisites[..|reg.requisites|] == reg.requisites
    ensures r.states == reg.states && r.extended == reg.extended && r.includes == reg.includes
  {
    reg.(requisites := reg.requisites + [req])
  }

  /** `pop_requisite`: removes the top of the stack; on an empty stack Python raises IndexError. */
  function PopRequisite(reg: StateRegistry): (r: Result<StateRegistry, Error>)
    ensures r.Failure? <==> reg.requisites == []
    ensures r.Failure? ==> r.error == EmptyStack
    ensures r.Success? ==> r.value.requisites + [reg.requisites[|reg.requisites| - 1]] == reg.requisites
    ensures r.Success? ==> r.value.states == reg.states && r.value.extended == reg.extended && r.value.includes == reg.includes
  {
    if reg.requisites == [] then Failure(EmptyStack)
    else Success(reg.(requisites := reg.requisites[..|reg.requisites| - 1]))
  }

  /** Entering then leaving a scope guard leaves the registry exactly as it was. */
  lemma PushThenPop(reg: StateRegistry, req: StateRequisite)
    ensures PopRequisite(PushRequisite(reg, req)) == Success(reg)
  {
    assert (reg.requisites + [req])[..|reg.requisites|] == reg.requisites;
  }

  /** The stack is last-in first-out: after two pushes, pops remove the later one first. */
  lemma StackIsLifo(reg: StateRegistry, a: StateRequisite, b: StateRequisite)
    ensures var twice := PushRequisite(PushRequisite(reg, a), b);
      && PopRequisite(twice) == Success(PushRequisite(reg, a))
      && PopRequisite(PushRequisite(reg, a)) == Success(reg)
  {
    PushThenPop(PushRequisite(reg, a), b);
    PushThenPop(reg, a);
  }

  // ---- injection of the active requisites into a new state ----

  /** The list already stored under a relation key (none when the key is absent). */
  function Items(v: Option<Value>): seq<Value>
  {
    if v.Some? && v.value.List? then v.value.items else []
  }

  /** `kwargs[rel].append(...)` can run: the key is absent (a list is created) or holds a list. */
  predicate Appendable(kw: Kwargs, rel: string)
  {
    Get(kw, rel).None? || Get(kw, rel).value.List?
  }

  /** One step of the loop in `add`: append the requisite's record under its relation. */
  function AppendEdge(kw: Kwargs, req: StateRequisite): (r: Result<Kwargs, Error>)
    ensures r.Success? <==> Appendable(kw, req.relation)
    ensures r.Failure? ==> r.error == NotAList(req.relation)
    ensures r.Success? ==> Get(r.value, req.relation) == Some(List(Items(Get(kw, req.relation)) + [Record(req)]))
    ensures r.Success? ==> forall k :: k != req.relation ==> Get(r.value, k) == Get(kw, k)
  {
    if Appendable(kw, req.relation) then
      var v := List(Items(Get(kw, req.relation)) + [Record(req)]);
      PutKeepsUniqueKeys(kw, req.relation, v);
      PutGet(kw, req.relation, v);
      PutOthers(kw, req.relation, v);
      Success(Put(kw, req.relation, v))
    else
      Failure(NotAList(req.relation))
  }

  /** The records of the stack entries with relation `rel`, oldest first. */
  function Edges(stack: seq<StateRequisite>, rel: string): seq<Value>
  {
    if stack == [] then []
    else (if stack[0].relation == rel then [Record(stack[0])] else []) + Edges(stack[1..], rel)
  }

  /** The value a key should hold after injection: what the author supplied, then the stack's edges. */
  function AfterInjection(kw: Kwargs, stack: seq<StateRequisite>, k: string): Option<Value>
  {
    if Edges(stack, k) == [] then Get(kw, k) else Some(List(Items(Get(kw, k)) + Edges(stack, k)))
  }

  /** The loop of `add` over the whole stack, oldest entry first. */
  function Inject(kw: Kwargs, stack: seq<StateRequisite>): (r: Result<Kwargs, Error>)
    ensures r.Failure? ==> exists i :: 0 <= i < |stack| && r.error == NotAList(stack[i].relation)
    decreases |stack|
  {
    if stack == [] then Success(kw)
    else
      var kw' :- AppendEdge(kw, stack[0]);
      var r := Inject(kw', stack[1..]);
      if r.Failure? then
        var i :| 0 <= i < |stack[1..]| && r.error == NotAList(stack[1..][i].relation);
        assert stack[1..][i] == stack[i + 1];
        r
      else
        r
  }

  /** After a successful first step, the rest of the stack faces the same list-or-absent test. */
  lemma AppendableAfterStep(kw: Kwargs, stack: seq<StateRequisite>)
    requires stack != [] && AppendEdge(kw, stack[0]).Success?
    ensures forall i :: 1 <= i < |stack| ==>
      (Appendable(AppendEdge(kw, stack[0]).value, stack[i].relation) <==> Appendable(kw, stack[i].relation))
  {
  }

  /** Injection succeeds exactly when every active relation is absent or a list in the author's arguments. */
  lemma {:induction false} InjectSucceedsIff(kw: Kwargs, stack: seq<StateRequisite>)
    ensures Inject(kw, stack).Success? <==>
      forall i :: 0 <= i < |stack| ==> Appendable(kw, stack[i].relation)
    decreases |stack|
  {
    if stack == [] {
    } else if AppendEdge(kw, stack[0]).Failure? {
      assert !Appendable(kw, stack[0].relation);
    } else {
      var kw' := AppendEdge(kw, stack[0]).value;
      assert Inject(kw, stack) == Inject(kw', stack[1..]);
      InjectSucceedsIff(kw', stack[1..]);
      AppendableAfterStep(kw, stack);
      assert forall i :: 1 <= i < |stack| ==> stack[1..][i - 1] == stack[i];
      assert Appendable(kw, stack[0].relation);
    }
  }

  /** A failed injection reports the relation of an active requisite whose key holds a non-list. */
  lemma {:induction false} InjectFailure(kw: Kwargs, stack: seq<StateRequisite>)
    ensures Inject(kw, stack).Failure? ==>
      exists i :: 0 <= i < |stack| && !Appendable(kw, stack[i].relation)
        && Inject(kw, stack).error == NotAList(stack[i].relation)
    decreases |stack|
  {
    if stack != [] && AppendEdge(kw, stack[0]).Success? && Inject(kw, stack).Failure? {
      var kw' := AppendEdge(kw, stack[0]).value;
      InjectFailure(kw', stack[1..]);
      AppendableAfterStep(kw, stack);
      var j :| 0 <= j < |stack[1..]| && !Appendable(kw', stack[1..][j].relation)
        && Inject(kw, stack).error == NotAList(stack[1..][j].relation);
      assert stack[1..][j] == stack[j + 1];
    }
  }

  /** One appended edge followed by the rest of the stack gives what the whole stack should give. */
  lemma AfterInjectionStep(kw: Kwargs, stack: seq<StateRequisite>, k: string)
    requires stack != [] && AppendEdge(kw, stack[0]).Success?
    ensures AfterInjection(AppendEdge(kw, stack[0]).value, stack[1..], k) == AfterInjection(kw, stack, k)
  {
    if k == stack[0].relation {
      AfterInjectionStepSame(kw, stack);
    } else {
      assert Edges(stack, k) == Edges(stack[1..], k);
    }
  }

  lemma AfterInjectionStepSame(kw: Kwargs, stack: seq<StateRequisite>)
    requires stack != [] && AppendEdge(kw, stack[0]).Success?
    ensures var k := stack[0].relation;
      AfterInjection(AppendEdge(kw, stack[0]).value, stack[1..], k) == AfterInjection(kw, stack, k)
  {
    var k := stack[0].relation;
    var kw' := AppendEdge(kw, stack[0]).value;
    EdgesHead(stack);
    ItemsAfterAppend(kw, stack[0]);
    AfterInjectionUnfold(kw', stack[1..], k);
    AfterInjectionUnfold(kw, stack, k);
    var given := Items(Get(kw, k));
    var rest := Edges(stack[1..], k);
    AppendThenRest(given, Record(stack[0]), rest);
    if rest == [] {
      assert given + [Record(stack[0])] + rest == given + [Record(stack[0])];
    }
  }

  /** `Edges` at the head of the stack, kept as its own lemma so the proof above needs no unfolding of its own. */
  lemma EdgesHead(stack: seq<StateRequisite>)
    requires stack != []
    ensures Edges(stack, stack[0].relation) == [Record(stack[0])] + Edges(stack[1..], stack[0].relation)
  {
  }

  /** The list under the relation after one step, as `Items` reads it. */
  lemma ItemsAfterAppend(kw: Kwargs, req: StateRequisite)
    requires AppendEdge(kw, req).Success?
    ensures Items(Get(AppendEdge(kw, req).value, req.relation)) == Items(Get(kw, req.relation)) + [Record(req)]
  {
  }

  /** `AfterInjection` unfolded, kept as its own lemma for the same reason as `EdgesHead`. */
  lemma AfterInjectionUnfold(kw: Kwargs, stack: seq<StateRequisite>, k: string)
    ensures AfterInjection(kw, stack, k) == if Edges(stack, k) == [] then Get(kw, k) else Some(List(Items(Get(kw, k)) + Edges(stack, k)))
  {
  }

  /** Regrouping the items around the appended record. */
  lemma AppendThenRest(given: seq<Value>, rec: Value, rest: seq<Value>)
    ensures given + ([rec] + rest) == (given + [rec]) + rest
  {
  }

  /**
   * After a successful injection every key holds the author's entries
   * followed by the stack's records for that relation, in stack order;
   * every other key is untouched.
   */
  lemma {:induction false} InjectContents(kw: Kwargs, stack: seq<StateRequisite>)
    ensures Inject(kw, stack).Success? ==>
      forall k :: Get(Inject(kw, stack).value, k) == AfterInjection(kw, stack, k)
    decreases |stack|
  {
    if stack != [] && AppendEdge(kw, stack[0]).Success? && Inject(kw, stack).Success? {
      var kw' := AppendEdge(kw, stack[0]).value;
      InjectContents(kw', stack[1..]);
      forall k
        ensures Get(Inject(kw, stack).value, k) == AfterInjection(kw, stack, k)
      {
        AfterInjectionStep(kw, stack, k);
      }
    }
  }

  // ---- add / extend ----

  /** The section `add` targets. */
  function SectionOf(reg: StateRegistry, extend: bool): Section
  {
    if extend then reg.extended else reg.states
  }

  /**
   * `add(id, state, extend)`: rejects an id already in the target section
   * before touching anything, injects the active requisites into the
   * state's arguments and stores the state last in its section. Returns the
   * new registry and the state as Python leaves it (its kwargs mutated).
   */
  function Add(reg: StateRegistry, id: string, s: State, extend: bool): (r: Result<(StateRegistry, State), Error>)
    ensures id in Keys(SectionOf(reg, extend)) ==> r == Failure(DuplicateState(id))
    ensures id !in Keys(SectionOf(reg, extend)) ==>
      (r.Success? <==> forall i :: 0 <= i < |reg.requisites| ==> Appendable(s.kwargs, reg.requisites[i].relation))
    ensures r.Failure? && id !in Keys(SectionOf(reg, extend)) ==> r.error.NotAList?
    ensures r.Success? ==>
      && SectionOf(r.value.0, extend) == SectionOf(reg, extend) + [(id, r.value.1)]
      && SectionOf(r.value.0, !extend) == SectionOf(reg, !extend)
      && r.value.0.requisites == reg.requisites
      && r.value.0.includes == reg.includes
    ensures r.Success? ==>
      && r.value.1 == s.(kwargs := r.value.1.kwargs)
      && forall k :: Get(r.value.1.kwargs, k) == AfterInjection(s.kwargs, reg.requisites, k)
  {
    var section := SectionOf(reg, extend);
    if id in Keys(section) then Failure(DuplicateState(id))
    else
      var injected := Inject(s.kwargs, reg.requisites);
      InjectSucceedsIff(s.kwargs, reg.requisites);
      InjectFailure(s.kwargs, reg.requisites);
      InjectContents(s.kwargs, reg.requisites);
      if injected.Failure? then Failure(injected.error)
      else Success((Store(reg, id, s.(kwargs := injected.value), extend), s.(kwargs := injected.value)))
  }

  /** `attr[id_] = state` for an id not yet in the section: appended last. */
  function Store(reg: StateRegistry, id: string, s: State, extend: bool): (r: StateRegistry)
    requires id !in Keys(SectionOf(reg, extend))
    ensures SectionOf(r, extend) == SectionOf(reg, extend) + [(id, s)]
    ensures SectionOf(r, !extend) == SectionOf(reg, !extend)
    ensures r.requisites == reg.requisites && r.includes == reg.includes
  {
    var section := SectionOf(reg, extend);
    var section' := section + [(id, s)];
    assert UniqueKeys(section') by {
      forall i | 0 <= i < |section|
        ensures section[i].0 != id
      {
        assert Keys(section)[i] == section[i].0;
      }
    }
    if extend then reg.(extended := section') else reg.(states := section')
  }

  /** `extend(id, state)`: `add` into the extend section. */
  function Extend(reg: StateRegistry, id: string, s: State): (r: Result<(StateRegistry, State), Error>)
    ensures id in Keys(reg.extended) ==> r == Failure(DuplicateState(id))
    ensures r.Success? ==> r.value.0.extended == reg.extended + [(id, r.value.1)] && r.value.0.states == reg.states
  {
    Add(reg, id, s, true)
  }

  /** One id may be declared once in each section: the two sections never clash. */
  lemma SectionsAreIndependent(reg: StateRegistry, id: string, s: State, t: State)
    requires id !in Keys(reg.states) && id !in Keys(reg.extended)
    requires reg.requisites == []
    ensures Add(reg, id, s, false).Success?
    ensures Extend(Add(reg, id, s, false).value.0, id, t).Success?
    ensures Add(Add(reg, id, s, false).value.0, id, t, false) == Failure(DuplicateState(id))
  {
    var r1 := Add(reg, id, s, false).value.0;
    assert Keys(r1.states) == Keys(reg.states) + [id];
  }

  // ---- salt_data ----

  /** A section serialised: each id, in order, paired with what its state returns when called. */
  function Serialise(sec: Section): (r: Document)
    ensures Keys(r) == Keys(sec)
    ensures forall i :: 0 <= i < |sec| ==> r[i].1 == Call(sec[i].1)
  {
    seq(|sec|, i requires 0 <= i < |sec| => (sec[i].0, Call(sec[i].1)))
  }

  function Strs(names: seq<string>): (r: seq<Value>)
    ensures |r| == |names| && forall i :: 0 <= i < |names| ==> r[i] == Str(names[i])
  {
    seq(|names|, i requires 0 <= i < |names| => Str(names[i]))
  }

  /** Sets the `include` key to the include names, but only when there are any. */
  function AddIncludes(doc: Document, includes: seq<string>): Document
  {
    if |includes| > 0 then Put(doc, "include", List(Strs(includes))) else doc
  }

  /** Sets the `extend` key to the serialised extend section, but only when it is non-empty. */
  function AddExtends(doc: Document, extended: Section): Document
  {
    if |extended| > 0 then Put(doc, "extend", Dict(Serialise(extended))) else doc
  }

  /**
   * `salt_data()`: the states in insertion order, then an `include` entry
   * when there are includes and an `extend` entry when there are extends;
   * the registry is emptied afterwards.
   */
  function SaltData(reg: StateRegistry): (r: (Document, StateRegistry))
    ensures r.1 == Empty()
    ensures reg.states == [] && reg.includes == [] && reg.extended == [] ==> r.0 == []
    ensures |reg.includes| > 0 ==> Get(r.0, "include") == Some(List(Strs(reg.includes)))
    ensures |reg.extended| > 0 ==> Get(r.0, "extend") == Some(Dict(Serialise(reg.extended)))
    ensures reg.includes == [] && reg.extended == [] ==> r.0 == Serialise(reg.states)
  {
    var doc := Serialise(reg.states);
    var doc1 := AddIncludes(doc, reg.includes);
    PutGet(doc, "include", List(Strs(reg.includes)));
    PutGet(doc1, "extend", Dict(Serialise(reg.extended)));
    PutOther(doc1, "extend", Dict(Serialise(reg.extended)), "include");
    (AddExtends(doc1, reg.extended), Empty())
  }

  /** The `include` entry, when there are includes. */
  function IncludeTail(includes: seq<string>): Document
  {
    if |includes| > 0 then [("include", List(Strs(includes)))] else []
  }

  /** The `extend` entry, when there are extends. */
  function ExtendTail(extended: Section): Document
  {
    if |extended| > 0 then [("extend", Dict(Serialise(extended)))] else []
  }

  lemma AddIncludesAppends(doc: Document, includes: seq<string>)
    requires "include" !in Keys(doc)
    ensures AddIncludes(doc, includes) == doc + IncludeTail(includes)
  {
    if |includes| > 0 {
      PutFresh(doc, "include", List(Strs(includes)));
    }
  }

  lemma AddExtendsAppends(doc: Document, extended: Section)
    requires "extend" !in Keys(doc)
    ensures AddExtends(doc, extended) == doc + ExtendTail(extended)
  {
    if |extended| > 0 {
      PutFresh(doc, "extend", Dict(Serialise(extended)));
    }
  }

  /**
   * When no state is itself called `include` or `extend`, the document
   * is the states in insertion order, each as its `state()`, followed by
   * the `include` entry and then the `extend` entry when present.
   */
  lemma SaltDataLayout(reg: StateRegistry)
    requires "include" !in Keys(reg.states) && "extend" !in Keys(reg.states)
    ensures SaltData(reg).0 == Serialise(reg.states) + IncludeTail(reg.includes) + ExtendTail(reg.extended)
  {
    SaltDataSteps(reg);
    AppendsBoth(Serialise(reg.states), reg.includes, reg.extended);
  }

  lemma SaltDataSteps(reg: StateRegistry)
    ensures SaltData(reg).0 == AddExtends(AddIncludes(Serialise(reg.states), reg.includes), reg.extended)
  {
  }

  lemma AppendsBoth(doc: Document, includes: seq<string>, extended: Section)
    requires "include" !in Keys(doc) && "extend" !in Keys(doc)
    ensures AddExtends(AddIncludes(doc, includes), extended) == doc + IncludeTail(includes) + ExtendTail(extended)
  {
    AddIncludesAppends(doc, includes);
    NoExtendKey(doc, includes);
    AddExtendsAppends(doc + IncludeTail(includes), extended);
  }

  lemma NoExtendKey(doc: Document, includes: seq<string>)
    requires "extend" !in Keys(doc)
    ensures "extend" !in Keys(doc + IncludeTail(includes))
  {
    KeysConcat(doc, IncludeTail(includes));
    assert "extend"[0] != "include"[0];
  }

  lemma IncludeTailKeys(includes: seq<string>)
    ensures Keys(IncludeTail(includes)) == if |includes| > 0 then ["include"] else []
  {
  }

  lemma ExtendTailKeys(extended: Section)
    ensures Keys(ExtendTail(extended)) == if |extended| > 0 then ["extend"] else []
  {
  }

  /** So the keys come out in insertion order, with `include` and `extend` last. */
  lemma SaltDataKeyOrder(reg: StateRegistry)
    requires "include" !in Keys(reg.states) && "extend" !in Keys(reg.states)
    ensures Keys(SaltData(reg).0) == Keys(reg.states)
      + (if |reg.includes| > 0 then ["include"] else [])
      + (if |reg.extended| > 0 then ["extend"] else [])
  {
    var doc := Serialise(reg.states);
    SaltDataLayout(reg);
    KeysConcat(doc + IncludeTail(reg.includes), ExtendTail(reg.extended));
    KeysConcat(doc, IncludeTail(reg.includes));
    IncludeTailKeys(reg.includes);
    ExtendTailKeys(reg.extended);
  }

  /** A registry that has been serialised serialises next to nothing. */
  lemma SaltDataTwice(reg: StateRegistry)
    ensures SaltData(SaltData(reg).1).0 == []
  {
  }
}
