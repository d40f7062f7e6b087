/**
 * `StateFactory`: per salt module, resolves `Factory.<func>` against the
 * module's whitelist and builds registered States; called directly it
 * yields a StateRequisite instead.
 */
module Factory {
  import opened Wrappers
  import opened OrderedMaps
  import opened Values
  import opened States
  import opened Registry

  /** `StateFactory(module, registry, valid_funcs)`; an empty list means no restriction. */
  datatype StateFactory = StateFactory(mod: string, validFuncs: seq<string>)

  /** The `make_state` closure `__getattr__` returns, bound to one module and function. */
  datatype StateMaker = StateMaker(mod: string, func: string)

  /** `__getattr__(func)`: rejects a function outside a non-empty whitelist. */
  function GetAttr(f: StateFactory, func: string): (r: Result<StateMaker, Error>)
    ensures r.Failure? <==> |f.validFuncs| > 0 && func !in f.validFuncs
    ensures r.Failure? ==> r.error == InvalidFunction(func, f.mod)
    ensures r.Success? ==> r.value.mod == f.mod && r.value.func == func
  {
    if |f.validFuncs| > 0 && func !in f.validFuncs then Failure(InvalidFunction(func, f.mod))
    else Success(StateMaker(f.mod, func))
  }

  /**
   * Keyword arguments Python cannot pass through: `id_` clashes with
   * `make_state`'s parameter, the others with `State.__init__`'s.
   */
  const RESERVED: seq<string> := ["id_", "self", "module", "func", "registry"]

  /** The parameters `State.__init__` binds positionally before it reads the keywords. */
  const BOUND: seq<string> := ["self", "module", "func"]

  /** Position `i` holds the first key of `kw` that is one of `BOUND`. */
  predicate FirstBoundAt(kw: seq<(string, Value)>, i: int)
    requires 0 <= i < |kw|
  {
    kw[i].0 in BOUND && forall j :: 0 <= j < i ==> kw[j].0 !in BOUND
  }

  /** The first keyword argument, in argument order, that is one of `BOUND`. */
  function FirstBound(kw: seq<(string, Value)>): (r: Option<string>)
    ensures r.None? <==> forall i :: 0 <= i < |kw| ==> kw[i].0 !in BOUND
    ensures r.Some? ==> exists i :: 0 <= i < |kw| && FirstBoundAt(kw, i) && kw[i].0 == r.value
  {
    if kw == [] then None
    else if kw[0].0 in BOUND then Some(kw[0].0)
    else
      var rest := FirstBound(kw[1..]);
      assert forall i :: 1 <= i < |kw| ==> kw[1..][i - 1] == kw[i];
      if rest.Some? then
        var i :| 0 <= i < |kw[1..]| && FirstBoundAt(kw[1..], i) && kw[1..][i].0 == rest.value;
        assert FirstBoundAt(kw, i + 1);
        rest
      else
        rest
  }

  /**
   * The keyword Python's TypeError names, if any. `make_state(id_, **kwargs)`
   * rejects `id_` first; the call `State(..., registry=..., **kwargs)` then
   * rejects `registry`; `State.__init__` finally meets the keywords in order
   * and rejects the first one naming a parameter it has already bound.
   */
  function Clash(kw: seq<(string, Value)>): (r: Option<string>)
    ensures r.None? <==> forall i :: 0 <= i < |kw| ==> kw[i].0 !in RESERVED
    ensures r.Some? ==> r.value in RESERVED && r.value in Keys(kw)
    ensures "id_" in Keys(kw) ==> r == Some("id_")
    ensures "id_" !in Keys(kw) && "registry" in Keys(kw) ==> r == Some("registry")
    ensures "id_" !in Keys(kw) && "registry" !in Keys(kw) && r.Some? ==>
      exists i :: 0 <= i < |kw| && FirstBoundAt(kw, i) && kw[i].0 == r.value
  {
    if "id_" in Keys(kw) then Some("id_")
    else if "registry" in Keys(kw) then Some("registry")
    else
      var r := FirstBound(kw);
      if r.Some? then
        var i :| 0 <= i < |kw| && FirstBoundAt(kw, i) && kw[i].0 == r.value;
        assert Keys(kw)[i] == r.value;
        r
      else
        r
  }

  /** The id a State is stored and known under: an extend marker is unwrapped to its name. */
  function IdName(id: StateId): (r: string)
    ensures id == Plain(r) || id == Ext(MakeExtend(r))
  {
    match id
    case Plain(i) => i
    case Ext(marker) => marker.name
  }

  /**
   * `make_state(id_, **kwargs)`, i.e. `State.__init__`: registers the new
   * State under its id, into the extend section when the id is an extend
   * marker, and returns the registry and the State.
   */
  function MakeState(reg: StateRegistry, maker: StateMaker, id: StateId, kw: Kwargs): (r: Result<(StateRegistry, State), Error>)
    ensures Clash(kw).Some? ==> r == Failure(MultipleValues(Clash(kw).value))
    ensures Clash(kw).None? && IdName(id) in Keys(SectionOf(reg, id.Ext?)) ==> r == Failure(DuplicateState(IdName(id)))
    ensures r.Success? ==>
      && r.value.1.id == IdName(id) && r.value.1.mod == maker.mod && r.value.1.func == maker.func
      && SectionOf(r.value.0, id.Ext?) == SectionOf(reg, id.Ext?) + [(IdName(id), r.value.1)]
      && SectionOf(r.value.0, !id.Ext?) == SectionOf(reg, !id.Ext?)
      && r.value.0.requisites == reg.requisites && r.value.0.includes == reg.includes
  {
    if Clash(kw).Some? then Failure(MultipleValues(Clash(kw).value))
    else
      var name := IdName(id);
      var s := State(name, maker.mod, maker.func, kw);
      match id
      case Plain(_) => Add(reg, name, s, false)
      case Ext(_) => Extend(reg, name, s)
  }

  /** `Factory.<func>(id_, **kwargs)`: attribute lookup, then construction. */
  function Declare(reg: StateRegistry, f: StateFactory, func: string, id: StateId, kw: Kwargs): (r: Result<(StateRegistry, State), Error>)
    ensures |f.validFuncs| > 0 && func !in f.validFuncs ==> r == Failure(InvalidFunction(func, f.mod))
    ensures r.Success? ==> func in f.validFuncs || f.validFuncs == []
    ensures r.Success? ==> r.value.1.mod == f.mod && r.value.1.func == func && r.value.1.id == IdName(id)
  {
    var maker :- GetAttr(f, func);
    MakeState(reg, maker, id, kw)
  }

  /** `Factory(id_, requisite)`: an edge to `id_` in this factory's module; the registry is not involved. */
  function CallFactory(f: StateFactory, id: string, relation: string): (r: StateRequisite)
    ensures r.relation == relation
    ensures Record(r) == Dict([(f.mod, Str(id))])
  {
    StateRequisite(relation, f.mod, id)
  }

  /** A State whose id is `extend(name)` lands last in the extend section under `name`; the states are untouched. */
  lemma ExtendMarkerTargetsExtends(reg: StateRegistry, maker: StateMaker, name: string, kw: Kwargs)
    requires MakeState(reg, maker, Ext(MakeExtend(name)), kw).Success?
    ensures var (reg', s) := MakeState(reg, maker, Ext(MakeExtend(name)), kw).value;
      && reg'.extended == reg.extended + [(name, s)]
      && reg'.states == reg.states
      && s.id == name
  {
  }

  /** Without active scopes, a fresh id, a whitelisted function and no clashing keyword, declaring always succeeds. */
  lemma DeclareSucceeds(reg: StateRegistry, f: StateFactory, func: string, id: StateId, kw: Kwargs)
    requires reg.requisites == []
    requires func in f.validFuncs || f.validFuncs == []
    requires forall i :: 0 <= i < |kw| ==> kw[i].0 !in RESERVED
    requires IdName(id) !in Keys(SectionOf(reg, id.Ext?))
    ensures Declare(reg, f, func, id, kw).Success?
  {
  }
}
