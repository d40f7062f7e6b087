/**
 * `render`: partition the available `mod.func` names by module, bind one
 * StateFactory per module, run the template against them and serialise the
 * registry. The template itself is Python code run by `exec`; here it is
 * represented by the sequence of renderer calls it makes (`Stmt`).
 */
module Render {
  import opened Wrappers
  import opened OrderedMaps
  import opened Values
  import opened States
  import opened Registry
  import opened Factory

  // ---- splitting `mod.func` ----

  /** Position of the first '.' in `s`. */
  function FirstDot(s: string): (i: nat)
    requires '.' in s
    ensures i < |s| && s[i] == '.' && '.' !in s[..i]
  {
    if s[0] == '.' then 0
    else
      var i := FirstDot(s[1..]);
      assert s[..i + 1] == [s[0]] + s[1..][..i];
      i + 1
  }

  /** The name holds exactly one '.'. */
  predicate OneDot(name: string)
  {
    multiset(name)['.'] == 1
  }

  /** `(mod, func) = name.split(".")`: succeeds exactly when the name holds one '.', and splits at it. */
  function SplitDot(name: string): (r: Option<(string, string)>)
    ensures r.Some? <==> OneDot(name)
    ensures r.Some? ==> name == r.value.0 + "." + r.value.1 && '.' !in r.value.0 && '.' !in r.value.1
  {
    if '.' !in name then None
    else
      var i := FirstDot(name);
      var m := name[..i];
      var f := name[i + 1..];
      assert name == m + "." + f;
      assert multiset(name) == multiset(m) + multiset{'.'} + multiset(f);
      assert multiset(m)['.'] == 0;
      if '.' in f then None else Some((m, f))
  }

  /** Joining a module and a function with '.' splits back into the two. */
  lemma SplitJoin(m: string, f: string)
    requires '.' !in m && '.' !in f
    ensures SplitDot(m + "." + f) == Some((m, f))
  {
    var name := m + "." + f;
    assert multiset(name) == multiset(m) + multiset{'.'} + multiset(f);
    assert multiset(m)['.'] == 0 && multiset(f)['.'] == 0;
    assert name[..|m|] == m && name[|m|] == '.' && name[|m| + 1..] == f;
    var i := FirstDot(name);
    assert i == |m|;
  }

  /** A State's `full_func` splits back into its module and function, as `render` splits the names it is given. */
  lemma SplitFullFunc(s: State)
    requires '.' !in s.mod && '.' !in s.func
    ensures SplitDot(FullFunc(s)) == Some((s.mod, s.func))
  {
    SplitJoin(s.mod, s.func);
  }

  // ---- partitioning the available names ----

  /** The functions of module `m` among `names`, in the order they appear. */
  function FuncsOf(names: seq<string>, m: string): seq<string>
  {
    if names == [] then []
    else
      var last := names[|names| - 1];
      FuncsOf(names[..|names| - 1], m)
        + (match SplitDot(last)
           case Some((m', f)) => if m' == m then [f] else []
           case None => [])
  }

  function Funcs(v: Option<seq<string>>): seq<string>
  {
    if v.Some? then v.value else []
  }

  /** One iteration of the loop that builds `_st_funcs`. */
  function AddName(groups: seq<(string, seq<string>)>, name: string): (r: Result<seq<(string, seq<string>)>, Error>)
    ensures r.Success? <==> SplitDot(name).Some?
    ensures r.Failure? ==> r.error == MalformedName(name)
    ensures r.Success? ==> var p := SplitDot(name).value;
      && Get(r.value, p.0) == Some(Funcs(Get(groups, p.0)) + [p.1])
      && (forall m' :: m' != p.0 ==> Get(r.value, m') == Get(groups, m'))
      && Keys(r.value) == if p.0 in Keys(groups) then Keys(groups) else Keys(groups) + [p.0]
  {
    match SplitDot(name)
    case None => Failure(MalformedName(name))
    case Some((m, f)) =>
      var fs := Funcs(Get(groups, m)) + [f];
      PutGet(groups, m, fs);
      PutOthers(groups, m, fs);
      Success(Put(groups, m, fs))
  }

  /** The loop that builds `_st_funcs`: module -> its functions, modules in order of first appearance. */
  function Partition(names: seq<string>): (r: Result<seq<(string, seq<string>)>, Error>)
    ensures r.Failure? ==> exists i :: 0 <= i < |names| && r.error == MalformedName(names[i])
  {
    if names == [] then Success([])
    else
      var prefix := names[..|names| - 1];
      var groups := Partition(prefix);
      if groups.Failure? then
        var i :| 0 <= i < |prefix| && groups.error == MalformedName(prefix[i]);
        assert prefix[i] == names[i];
        Failure(groups.error)
      else
        AddName(groups.value, names[|names| - 1])
  }

  /** Partitioning succeeds exactly when every name holds one '.'. */
  lemma {:induction false} PartitionSucceedsIff(names: seq<string>)
    ensures Partition(names).Success? <==> forall i :: 0 <= i < |names| ==> OneDot(names[i])
  {
    if names != [] {
      var prefix := names[..|names| - 1];
      PartitionSucceedsIff(prefix);
      PartitionStepSucceeds(names);
      AllOneDotSplit(names, prefix);
    }
  }

  lemma PartitionStepSucceeds(names: seq<string>)
    requires names != []
    ensures Partition(names).Success? <==> Partition(names[..|names| - 1]).Success? && OneDot(names[|names| - 1])
  {
  }

  lemma AllOneDotSplit(names: seq<string>, prefix: seq<string>)
    requires names != [] && prefix == names[..|names| - 1]
    ensures (forall i :: 0 <= i < |names| ==> OneDot(names[i]))
      <==> (forall i :: 0 <= i < |prefix| ==> OneDot(prefix[i])) && OneDot(names[|names| - 1])
  {
    assert forall i :: 0 <= i < |prefix| ==> prefix[i] == names[i];
  }

  /** A failed partition reports the first name without exactly one '.'. */
  lemma {:induction false} PartitionFailure(names: seq<string>)
    ensures Partition(names).Failure? ==>
      exists i :: 0 <= i < |names| && !OneDot(names[i])
        && Partition(names).error == MalformedName(names[i])
        && forall j :: 0 <= j < i ==> OneDot(names[j])
  {
    if names != [] {
      var prefix := names[..|names| - 1];
      PartitionFailure(prefix);
      PartitionSucceedsIff(prefix);
      assert forall i :: 0 <= i < |prefix| ==> prefix[i] == names[i];
      if Partition(prefix).Success? {
        assert forall j :: 0 <= j < |names| - 1 ==> OneDot(names[j]);
      }
    }
  }

  /** What the module's functions among `names` should look like in the partition. */
  function FuncsEntry(names: seq<string>, m: string): Option<seq<string>>
  {
    if FuncsOf(names, m) == [] then None else Some(FuncsOf(names, m))
  }

  lemma FuncsOfLastSame(names: seq<string>, m: string, f: string)
    requires names != [] && SplitDot(names[|names| - 1]) == Some((m, f))
    ensures FuncsOf(names, m) == FuncsOf(names[..|names| - 1], m) + [f]
  {
  }

  lemma FuncsOfLastOther(names: seq<string>, m: string, f: string, m': string)
    requires names != [] && SplitDot(names[|names| - 1]) == Some((m, f)) && m' != m
    ensures FuncsOf(names, m') == FuncsOf(names[..|names| - 1], m')
  {
  }

  lemma PartitionLast(names: seq<string>, m: string, f: string)
    requires names != [] && Partition(names).Success? && SplitDot(names[|names| - 1]) == Some((m, f))
    ensures var groups := Partition(names[..|names| - 1]).value;
      Partition(names).value == Put(groups, m, Funcs(Get(groups, m)) + [f])
  {
  }

  /** The inductive step of PartitionContents, for one module. */
  lemma PartitionContentsStep(names: seq<string>, m': string)
    requires names != [] && Partition(names).Success?
    requires Get(Partition(names[..|names| - 1]).value, m') == FuncsEntry(names[..|names| - 1], m')
    ensures Get(Partition(names).value, m') == FuncsEntry(names, m')
  {
    var m := SplitDot(names[|names| - 1]).value.0;
    var f := SplitDot(names[|names| - 1]).value.1;
    var groups := Partition(names[..|names| - 1]).value;
    var v := Funcs(Get(groups, m)) + [f];
    PartitionLast(names, m, f);
    if m' == m {
      PutGet(groups, m, v);
      FuncsOfLastSame(names, m, f);
    } else {
      PutOther(groups, m, v, m');
      FuncsOfLastOther(names, m, f, m');
    }
  }

  /** Each module maps to exactly the functions listed for it, in order; modules without functions are absent. */
  lemma {:induction false} PartitionContents(names: seq<string>)
    ensures Partition(names).Success? ==>
      forall m :: Get(Partition(names).value, m) == FuncsEntry(names, m)
  {
    if names != [] && Partition(names).Success? {
      PartitionContents(names[..|names| - 1]);
      forall m ensures Get(Partition(names).value, m) == FuncsEntry(names, m)
      {
        PartitionContentsStep(names, m);
      }
    }
  }

  /** The factory bound under the module's name, or NameError when no function of it is available. */
  function Bind(groups: seq<(string, seq<string>)>, m: string): (r: Result<StateFactory, Error>)
    ensures r.Failure? <==> Get(groups, m).None?
    ensures r.Failure? ==> r.error == UndefinedName(m)
    ensures r.Success? ==> r.value == StateFactory(m, Get(groups, m).value)
  {
    match Get(groups, m)
    case None => Failure(UndefinedName(m))
    case Some(funcs) => Success(StateFactory(m, funcs))
  }

  // ---- the template's calls ----

  /** One renderer-visible statement of a pyobjects template. */
  datatype Stmt =
    | Invoke(mod: string, func: string, id: StateId, kwargs: Kwargs)
      // Mod.func(id, **kwargs)
    | WithState(mod: string, func: string, id: StateId, kwargs: Kwargs, body: seq<Stmt>)
      // with Mod.func(id, **kwargs): body
    | WithRequisite(mod: string, target: string, relation: string, body: seq<Stmt>)
      // with Mod(target, relation): body
    | IncludeNames(names: seq<string>)
      // include(*names)

  /** Runs statements in order; every scope a statement opens is closed again. */
  function RunAll(groups: seq<(string, seq<string>)>, reg: StateRegistry, ss: seq<Stmt>): (r: Result<StateRegistry, Error>)
    ensures r.Success? ==> r.value.requisites == reg.requisites
    decreases ss
  {
    if ss == [] then Success(reg)
    else
      var reg1 :- Run(groups, reg, ss[0]);
      RunAll(groups, reg1, ss[1..])
  }

  /** Runs one statement; a `with` block pushes its requisite, runs its body and pops it. */
  function Run(groups: seq<(string, seq<string>)>, reg: StateRegistry, s: Stmt): (r: Result<StateRegistry, Error>)
    ensures r.Success? ==> r.value.requisites == reg.requisites
    decreases s
  {
    match s
    case Invoke(m, func, id, kw) =>
      var f :- Bind(groups, m);
      var made :- Declare(reg, f, func, id, kw);
      Success(made.0)
    case WithState(m, func, id, kw, body) =>
      var f :- Bind(groups, m);
      var made :- Declare(reg, f, func, id, kw);
      var inner :- RunAll(groups, PushRequisite(made.0, Guard(made.1)), body);
      PopRequisite(inner)
    case WithRequisite(m, target, rel, body) =>
      var f :- Bind(groups, m);
      var inner :- RunAll(groups, PushRequisite(reg, CallFactory(f, target, rel)), body);
      PopRequisite(inner)
    case IncludeNames(names) =>
      Success(Include(reg, names))
  }

  /** `render`: a fresh registry, the template's calls, then `salt_data()`. */
  function RenderTemplate(available: seq<string>, template: seq<Stmt>): (r: Result<Document, Error>)
    ensures (exists i :: 0 <= i < |available| && !OneDot(available[i])) ==> r.Failure? && r.error.MalformedName?
  {
    PartitionSucceedsIff(available);
    PartitionFailure(available);
    var groups :- Partition(available);
    var reg :- RunAll(groups, Empty(), template);
    Success(SaltData(reg).0)
  }

  /** A function not listed for its module is rejected with InvalidFunction. */
  lemma UnlistedFunctionRejected(available: seq<string>, reg: StateRegistry, m: string, func: string, id: StateId, kw: Kwargs)
    requires Partition(available).Success?
    requires FuncsOf(available, m) != [] && func !in FuncsOf(available, m)
    ensures Run(Partition(available).value, reg, Invoke(m, func, id, kw)) == Failure(InvalidFunction(func, m))
  {
    PartitionContents(available);
  }

  // ---- worked examples ----

  lemma AddNameFirst(m: string, f: string)
    requires '.' !in m && '.' !in f
    ensures AddName([], m + "." + f) == Success([(m, [f])])
  {
    SplitJoin(m, f);
    assert Get<seq<string>>([], m) == None;
    assert Funcs(Get<seq<string>>([], m)) + [f] == [f];
    PutFresh<seq<string>>([], m, [f]);
  }

  lemma PartitionOne(m: string, f: string)
    requires '.' !in m && '.' !in f
    ensures Partition([m + "." + f]) == Success([(m, [f])])
  {
    var names := [m + "." + f];
    assert names[..0] == [];
    assert names[|names| - 1] == m + "." + f;
    AddNameFirst(m, f);
  }

  /** Rendering is running the template on a fresh registry over the partition, then `salt_data()`. */
  lemma RenderSucceeds(available: seq<string>, template: seq<Stmt>, groups: seq<(string, seq<string>)>, reg: StateRegistry)
    requires Partition(available) == Success(groups)
    requires RunAll(groups, Empty(), template) == Success(reg)
    ensures RenderTemplate(available, template) == Success(SaltData(reg).0)
  {
  }

  /** With a single available name, the render is the template's run followed by `salt_data()`. */
  lemma RenderChain(m: string, f: string, template: seq<Stmt>, reg: StateRegistry, doc: Document)
    requires '.' !in m && '.' !in f
    requires RunAll([(m, [f])], Empty(), template) == Success(reg)
    requires SaltData(reg).0 == doc
    ensures RenderTemplate([m + "." + f], template) == Success(doc)
  {
    PartitionOne(m, f);
    RenderSucceeds([m + "." + f], template, [(m, [f])], reg);
  }

  /** With a single available name, an error the template's run raises is the render's error. */
  lemma RenderChainFails(m: string, f: string, template: seq<Stmt>, e: Error)
    requires '.' !in m && '.' !in f
    requires RunAll([(m, [f])], Empty(), template) == Failure(e)
    ensures RenderTemplate([m + "." + f], template) == Failure(e)
  {
    PartitionOne(m, f);
    RenderFails([m + "." + f], template, [(m, [f])], e);
  }

  /** An error raised while running the template is the error of the render. */
  lemma RenderFails(available: seq<string>, template: seq<Stmt>, groups: seq<(string, seq<string>)>, e: Error)
    requires Partition(available) == Success(groups)
    requires RunAll(groups, Empty(), template) == Failure(e)
    ensures RenderTemplate(available, template) == Failure(e)
  {
  }

  lemma RunAllCons(groups: seq<(string, seq<string>)>, reg: StateRegistry, s: Stmt, rest: seq<Stmt>)
    ensures RunAll(groups, reg, [s] + rest)
      == if Run(groups, reg, s).Success? then RunAll(groups, Run(groups, reg, s).value, rest)
         else Failure(Run(groups, reg, s).error)
  {
    assert ([s] + rest)[0] == s && ([s] + rest)[1..] == rest;
  }

  lemma GroupsOne(m: string, f: string)
    ensures Get([(m, [f])], m) == Some([f])
  {
  }

  lemma RunAllOne(groups: seq<(string, seq<string>)>, reg: StateRegistry, s: Stmt)
    ensures RunAll(groups, reg, [s]) == Run(groups, reg, s)
  {
    RunAllCons(groups, reg, s, []);
    assert [s] == [s] + [];
    if Run(groups, reg, s).Success? {
      assert RunAll(groups, Run(groups, reg, s).value, []) == Run(groups, reg, s);
    }
  }

  lemma RunAllTwo(groups: seq<(string, seq<string>)>, reg: StateRegistry, s1: Stmt, s2: Stmt)
    requires Run(groups, reg, s1).Success?
    ensures RunAll(groups, reg, [s1, s2]) == Run(groups, Run(groups, reg, s1).value, s2)
  {
    RunAllCons(groups, reg, s1, [s2]);
    assert [s1, s2] == [s1] + [s2];
    RunAllOne(groups, Run(groups, reg, s1).value, s2);
  }

  /** Outside any scope, declaring a fresh id with a listed function appends the State, arguments untouched. */
  lemma DeclareOutsideScopes(reg: StateRegistry, m: string, f: string, id: string, kw: Kwargs)
    requires reg.requisites == [] && Clash(kw).None? && id !in Keys(reg.states)
    ensures Declare(reg, StateFactory(m, [f]), f, Plain(id), kw)
      == Success((reg.(states := reg.states + [(id, State(id, m, f, kw))]), State(id, m, f, kw)))
  {
    var s := State(id, m, f, kw);
    assert Inject(kw, []) == Success(kw);
    assert Add(reg, id, s, false) == Success((Store(reg, id, s, false), s));
  }

  lemma InvokeOutsideScopes(groups: seq<(string, seq<string>)>, reg: StateRegistry, m: string, f: string, id: string, kw: Kwargs)
    requires Get(groups, m) == Some([f])
    requires reg.requisites == [] && Clash(kw).None? && id !in Keys(reg.states)
    ensures Run(groups, reg, Invoke(m, f, Plain(id), kw))
      == Success(reg.(states := reg.states + [(id, State(id, m, f, kw))]))
  {
    DeclareOutsideScopes(reg, m, f, id, kw);
  }

  /** Under one scope guard, a fresh id with no arguments gets exactly the guard's edge. */
  lemma InvokeUnderGuard(groups: seq<(string, seq<string>)>, reg: StateRegistry, m: string, f: string, id: string, g: StateRequisite)
    requires Get(groups, m) == Some([f])
    requires reg.requisites == [g] && id !in Keys(reg.states)
    ensures Run(groups, reg, Invoke(m, f, Plain(id), []))
      == Success(reg.(states := reg.states + [(id, State(id, m, f, [(g.relation, List([Record(g)]))]))]))
  {
    var kw: Kwargs := [(g.relation, List([Record(g)]))];
    assert Get<Value>([], g.relation) == None;
    assert Appendable([], g.relation);
    assert Items(Get<Value>([], g.relation)) + [Record(g)] == [Record(g)];
    PutFresh<Value>([], g.relation, List([Record(g)]));
    assert AppendEdge([], g) == Success(kw);
    assert Inject(kw, []) == Success(kw);
    assert Inject([], [g]) == Success(kw);
    var s := State(id, m, f, kw);
    assert Add(reg, id, State(id, m, f, []), false) == Success((Store(reg, id, s, false), s));
  }

  lemma RunOneState(m: string, f: string, id: string, kw: Kwargs)
    requires forall i :: 0 <= i < |kw| ==> kw[i].0 !in RESERVED
    ensures RunAll([(m, [f])], Empty(), [Invoke(m, f, Plain(id), kw)])
      == Success(Empty().(states := [(id, State(id, m, f, kw))]))
  {
    GroupsOne(m, f);
    assert Clash(kw).None? && Keys(Empty().states) == [];
    RunAllCons([(m, [f])], Empty(), Invoke(m, f, Plain(id), kw), []);
    InvokeOutsideScopes([(m, [f])], Empty(), m, f, id, kw);
    assert [Invoke(m, f, Plain(id), kw)] == [Invoke(m, f, Plain(id), kw)] + [];
    var s := State(id, m, f, kw);
    assert Empty().states + [(id, s)] == [(id, s)];
    var reg := Empty().(states := [(id, s)]);
    assert RunAll([(m, [f])], reg, []) == Success(reg);
  }

  lemma SerialiseOne(id: string, s: State)
    ensures Serialise([(id, s)]) == [(id, Call(s))]
  {
  }

  /** `Mod.func(id, **kwargs)` alone renders to `{id: {'mod.func': attrs}}`. */
  lemma RenderOneState(m: string, f: string, id: string, kw: Kwargs)
    requires '.' !in m && '.' !in f
    requires forall i :: 0 <= i < |kw| ==> kw[i].0 !in RESERVED
    ensures RenderTemplate([m + "." + f], [Invoke(m, f, Plain(id), kw)])
      == Success([(id, Dict([(m + "." + f, List(Attrs(kw)))]))])
  {
    var s := State(id, m, f, kw);
    var reg := Empty().(states := [(id, s)]);
    RunOneState(m, f, id, kw);
    RenderChain(m, f, [Invoke(m, f, Plain(id), kw)], reg, SaltData(reg).0);
    SerialiseOne(id, s);
  }

  /** A single argument comes out of `attrs` as one single-key dict holding its normalised entry. */
  lemma AttrsSingle(k: string, v: Value)
    ensures Attrs([(k, v)]) == [Dict([Normalise([(k, v)])[0]])]
  {
    var r := Attrs([(k, v)]);
    assert r[0].entries[0] in Normalise([(k, v)]);
    assert r[0].entries == [r[0].entries[0]];
  }

  /** A requisite list with no StateRequisite objects in it survives normalisation unchanged. */
  lemma NormaliseRecords(k: string, items: seq<Value>)
    requires k in REQUISITES
    requires forall j :: 0 <= j < |items| ==> !items[j].Req?
    ensures Normalise([(k, List(items))])[0] == (k, List(items))
  {
    assert AsRequisiteList(List(items)).items == items;
  }

  /**
   * A state declared inside `with Mod.func(a):` gains `require: [{mod: a}]`,
   * and the scope is closed again afterwards.
   */
  lemma RunNestedScope(m: string, f: string, a: string, b: string)
    requires a != b
    ensures RunAll([(m, [f])], Empty(), [WithState(m, f, Plain(a), [], [Invoke(m, f, Plain(b), [])])])
      == Success(Empty().(states := [
        (a, State(a, m, f, [])),
        (b, State(b, m, f, [("require", List([Dict([(m, Str(a))])]))]))]))
  {
    var groups := [(m, [f])];
    var sa := State(a, m, f, []);
    var body := [Invoke(m, f, Plain(b), [])];
    var reg1 := Empty().(states := [(a, sa)]);
    var reg2 := reg1.(requisites := [Guard(sa)]);
    var sb := State(b, m, f, [("require", List([Dict([(m, Str(a))])]))]);
    var reg3 := reg2.(states := [(a, sa), (b, sb)]);
    DeclareFirst(m, f, a);
    GroupsOne(m, f);
    assert Run(groups, Empty(), WithState(m, f, Plain(a), [], body))
      == (var inner := RunAll(groups, PushRequisite(reg1, Guard(sa)), body);
          if inner.Success? then PopRequisite(inner.value) else Failure(inner.error));
    assert PushRequisite(reg1, Guard(sa)) == reg2;
    InsideGuard(groups, m, f, a, b);
    RunAllOne(groups, reg2, body[0]);
    assert PopRequisite(reg3) == Success(Empty().(states := [(a, sa), (b, sb)]));
    RunAllOne(groups, Empty(), WithState(m, f, Plain(a), [], body));
  }

  lemma DeclareFirst(m: string, f: string, id: string)
    ensures Declare(Empty(), StateFactory(m, [f]), f, Plain(id), [])
      == Success((Empty().(states := [(id, State(id, m, f, []))]), State(id, m, f, [])))
  {
    assert Clash([]).None? && Keys(Empty().states) == [];
    DeclareOutsideScopes(Empty(), m, f, id, []);
    assert Empty().states + [(id, State(id, m, f, []))] == [(id, State(id, m, f, []))];
  }

  lemma InsideGuard(groups: seq<(string, seq<string>)>, m: string, f: string, a: string, b: string)
    requires groups == [(m, [f])]
    requires a != b
    ensures var sa := State(a, m, f, []);
      var reg2 := Empty().(states := [(a, sa)], requisites := [Guard(sa)]);
      Run(groups, reg2, Invoke(m, f, Plain(b), []))
        == Success(reg2.(states := [(a, sa), (b, State(b, m, f, [("require", List([Dict([(m, Str(a))])]))]))]))
  {
    var sa := State(a, m, f, []);
    var reg2 := Empty().(states := [(a, sa)], requisites := [Guard(sa)]);
    GroupsOne(m, f);
    assert Keys(reg2.states) == [a];
    InvokeUnderGuard(groups, reg2, m, f, b, Guard(sa));
    var sb := State(b, m, f, [("require", List([Dict([(m, Str(a))])]))]);
    assert reg2.states + [(b, sb)] == [(a, sa), (b, sb)];
  }

  lemma SaltDataNestedScope(m: string, f: string, a: string, b: string)
    requires a != b
    ensures SaltData(Empty().(states := [
        (a, State(a, m, f, [])),
        (b, State(b, m, f, [("require", List([Dict([(m, Str(a))])]))]))])).0
      == [
        (a, Dict([(m + "." + f, List([]))])),
        (b, Dict([(m + "." + f, List([Dict([("require", List([Dict([(m, Str(a))])]))])]))]))]
  {
    var edge := List([Dict([(m, Str(a))])]);
    var sa := State(a, m, f, []);
    var sb := State(b, m, f, [("require", edge)]);
    var reg := Empty().(states := [(a, sa), (b, sb)]);
    assert SaltData(reg).0 == Serialise([(a, sa), (b, sb)]);
    SerialiseTwo(a, sa, b, sb);
    CallWithRequire(sb, edge.items);
    CallNoArguments(sa);
  }

  lemma RenderNestedScope(m: string, f: string, a: string, b: string)
    requires '.' !in m && '.' !in f
    requires a != b
    ensures RenderTemplate([m + "." + f], [WithState(m, f, Plain(a), [], [Invoke(m, f, Plain(b), [])])])
      == Success([
        (a, Dict([(m + "." + f, List([]))])),
        (b, Dict([(m + "." + f, List([Dict([("require", List([Dict([(m, Str(a))])]))])]))]))])
  {
    var reg := Empty().(states := [
        (a, State(a, m, f, [])),
        (b, State(b, m, f, [("require", List([Dict([(m, Str(a))])]))]))]);
    RunNestedScope(m, f, a, b);
    SaltDataNestedScope(m, f, a, b);
    RenderChain(m, f, [WithState(m, f, Plain(a), [], [Invoke(m, f, Plain(b), [])])], reg, SaltData(reg).0);
  }

  lemma SerialiseTwo(a: string, sa: State, b: string, sb: State)
    requires a != b
    ensures Serialise([(a, sa), (b, sb)]) == [(a, Call(sa)), (b, Call(sb))]
  {
  }

  lemma CallNoArguments(s: State)
    requires s.kwargs == []
    ensures Call(s) == Dict([(FullFunc(s), List([]))])
  {
    assert Attrs([]) == [];
  }

  lemma CallWithRequire(s: State, items: seq<Value>)
    requires s.kwargs == [("require", List(items))]
    requires forall j :: 0 <= j < |items| ==> !items[j].Req?
    ensures Call(s) == Dict([(FullFunc(s), List([Dict([("require", List(items))])]))])
  {
    NormaliseRecords("require", items);
    AttrsSingle("require", List(items));
  }

  /** The same id may be declared once as a state and once as an extend; the extend comes out under `extend`. */
  lemma RunStateAndExtend(m: string, f: string, id: string)
    ensures RunAll([(m, [f])], Empty(), [Invoke(m, f, Plain(id), []), Invoke(m, f, Ext(StateExtend(id)), [])])
      == Success(Empty().(states := [(id, State(id, m, f, []))], extended := [(id, State(id, m, f, []))]))
  {
    var groups := [(m, [f])];
    var s := State(id, m, f, []);
    var i1 := Invoke(m, f, Plain(id), []);
    var i2 := Invoke(m, f, Ext(StateExtend(id)), []);
    GroupsOne(m, f);
    assert Clash([]).None? && Keys(Empty().states) == [];
    InvokeOutsideScopes(groups, Empty(), m, f, id, []);
    assert Empty().states + [(id, s)] == [(id, s)];
    var reg1 := Empty().(states := [(id, s)]);
    assert Keys(reg1.extended) == [];
    assert Inject([], []) == Success([]);
    assert reg1.extended + [(id, s)] == [(id, s)];
    var reg2 := reg1.(extended := [(id, s)]);
    assert Add(reg1, id, s, true) == Success((reg2, s));
    assert Run(groups, reg1, i2) == Success(reg2);
    RunAllCons(groups, reg1, i2, []);
    assert RunAll(groups, reg2, []) == Success(reg2);
    RunAllCons(groups, Empty(), i1, [i2]);
    assert [i1, i2] == [i1] + [i2] && [i2] == [i2] + [];
  }

  lemma SaltDataStateAndExtend(m: string, f: string, id: string)
    requires id != "include" && id != "extend"
    ensures SaltData(Empty().(states := [(id, State(id, m, f, []))], extended := [(id, State(id, m, f, []))])).0
      == [
        (id, Dict([(m + "." + f, List([]))])),
        ("extend", Dict([(id, Dict([(m + "." + f, List([]))]))]))]
  {
    var s := State(id, m, f, []);
    var reg := Empty().(states := [(id, s)], extended := [(id, s)]);
    assert Keys(reg.states) == [id];
    SaltDataLayout(reg);
    SerialiseOne(id, s);
    assert ExtendTail(reg.extended) == [("extend", Dict([(id, Call(s))]))];
    assert IncludeTail(reg.includes) == [];
  }

  lemma RenderStateAndExtend(m: string, f: string, id: string)
    requires '.' !in m && '.' !in f
    requires id != "include" && id != "extend"
    ensures RenderTemplate([m + "." + f], [Invoke(m, f, Plain(id), []), Invoke(m, f, Ext(StateExtend(id)), [])])
      == Success([
        (id, Dict([(m + "." + f, List([]))])),
        ("extend", Dict([(id, Dict([(m + "." + f, List([]))]))]))])
  {
    var reg := Empty().(states := [(id, State(id, m, f, []))], extended := [(id, State(id, m, f, []))]);
    RunStateAndExtend(m, f, id);
    RenderChain(m, f, [Invoke(m, f, Plain(id), []), Invoke(m, f, Ext(StateExtend(id)), [])], reg, SaltData(reg).0);
    SaltDataStateAndExtend(m, f, id);
  }

  lemma RunInvalidFunction(m: string, f: string, g: string, id: string)
    requires g != f
    ensures RunAll([(m, [f])], Empty(), [Invoke(m, g, Plain(id), [])]) == Failure(InvalidFunction(g, m))
  {
    GroupsOne(m, f);
    assert GetAttr(StateFactory(m, [f]), g) == Failure(InvalidFunction(g, m));
    RunAllOne([(m, [f])], Empty(), Invoke(m, g, Plain(id), []));
  }

  /** A function missing from the module's list is rejected: `Mod.g(...)` raises InvalidFunction. */
  lemma RenderInvalidFunction(m: string, f: string, g: string, id: string)
    requires '.' !in m && '.' !in f
    requires g != f
    ensures RenderTemplate([m + "." + f], [Invoke(m, g, Plain(id), [])]) == Failure(InvalidFunction(g, m))
  {
    RunInvalidFunction(m, f, g, id);
    RenderChainFails(m, f, [Invoke(m, g, Plain(id), [])], InvalidFunction(g, m));
  }

  lemma RunDuplicateState(m: string, f: string, id: string)
    ensures RunAll([(m, [f])], Empty(), [Invoke(m, f, Plain(id), []), Invoke(m, f, Plain(id), [])])
      == Failure(DuplicateState(id))
  {
    var groups := [(m, [f])];
    var i1 := Invoke(m, f, Plain(id), []);
    GroupsOne(m, f);
    DeclareFirst(m, f, id);
    var reg1 := Empty().(states := [(id, State(id, m, f, []))]);
    assert Run(groups, Empty(), i1) == Success(reg1);
    InvokeTwice(groups, reg1, m, f, id);
    RunAllTwo(groups, Empty(), i1, i1);
  }

  lemma InvokeTwice(groups: seq<(string, seq<string>)>, reg: StateRegistry, m: string, f: string, id: string)
    requires Get(groups, m) == Some([f])
    requires reg.states == [(id, State(id, m, f, []))]
    ensures Run(groups, reg, Invoke(m, f, Plain(id), [])) == Failure(DuplicateState(id))
  {
    assert Keys(reg.states) == [id];
    assert Clash([]).None?;
  }

  /** Declaring the same id twice in one section raises DuplicateState. */
  lemma RenderDuplicateState(m: string, f: string, id: string)
    requires '.' !in m && '.' !in f
    ensures RenderTemplate([m + "." + f], [Invoke(m, f, Plain(id), []), Invoke(m, f, Plain(id), [])])
      == Failure(DuplicateState(id))
  {
    RunDuplicateState(m, f, id);
    RenderChainFails(m, f, [Invoke(m, f, Plain(id), []), Invoke(m, f, Plain(id), [])], DuplicateState(id));
  }

  lemma RunSingleRequisiteInScope(m: string, f: string, a: string, b: string, v: Value)
    requires !v.List?
    ensures RunAll([(m, [f])], Empty(), [WithRequisite(m, a, "require", [Invoke(m, f, Plain(b), [("require", v)])])])
      == Failure(NotAList("require"))
  {
    var groups := [(m, [f])];
    var kw: Kwargs := [("require", v)];
    var i1 := Invoke(m, f, Plain(b), kw);
    var w := WithRequisite(m, a, "require", [i1]);
    GroupsOne(m, f);
    var req := CallFactory(StateFactory(m, [f]), a, "require");
    var reg1 := PushRequisite(Empty(), req);
    assert reg1.requisites == [req];
    assert Clash(kw).None? && Keys(reg1.states) == [];
    assert !Appendable(kw, "require");
    assert Inject(kw, [req]) == Failure(NotAList("require"));
    assert Run(groups, reg1, i1) == Failure(NotAList("require"));
    RunAllCons(groups, reg1, i1, []);
    assert [i1] == [i1] + [];
    assert Run(groups, Empty(), w) == Failure(NotAList("require"));
    RunAllCons(groups, Empty(), w, []);
    assert [w] == [w] + [];
  }

  /**
   * Inside a scope, a requisite argument given as a single value (not a
   * list) cannot take the injected edge: Python's `.append` raises
   * AttributeError on it.
   */
  lemma RenderSingleRequisiteInScope(m: string, f: string, a: string, b: string, v: Value)
    requires '.' !in m && '.' !in f
    requires !v.List?
    ensures RenderTemplate([m + "." + f], [WithRequisite(m, a, "require", [Invoke(m, f, Plain(b), [("require", v)])])])
      == Failure(NotAList("require"))
  {
    RunSingleRequisiteInScope(m, f, a, b, v);
    RenderChainFails(m, f, [WithRequisite(m, a, "require", [Invoke(m, f, Plain(b), [("require", v)])])], NotAList("require"));
  }
}
