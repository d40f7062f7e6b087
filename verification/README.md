# pyobjects state registry, in Dafny

A model of the declaration core of Salt's `pyobjects` renderer
(`renderers/pyobjects.py`). A pyobjects template is Python code that calls
`File.managed('/etc/foo', owner='root')` and the like. Each call records a
*state declaration* instead of running anything. The renderer collects the
declarations in a `StateRegistry`. `render` returns `salt_data()`: an ordered
highstate mapping from state id to `{'mod.func': [{key: value}, ...]}`.

The model is functional. The registry is an immutable value, and every
operation that Python performs by mutation returns the updated registry
instead. An operation that raises in Python returns a `Failure` carrying the
exception kind.

Modules, one per file:

- `Wrappers` (wrappers.dfy): `Option` and `Result`.
- `OrderedMaps` (ordered_maps.dfy): an `OrderedDict` with string keys, as a
  sequence of pairs. `Put` is `d[k] = v`: it replaces the value in place
  when the key exists and appends the pair otherwise.
- `KeyOrder` (key_order.dfy): Python's `str` ordering (`Below`) and
  `sorted` over distinct keys.
- `Values` (values.dfy): keyword-argument values, `StateRequisite`,
  `StateExtend`, and the errors.
- `States` (states.dfy): `State`, with `full_func`, `attrs` and `__call__`.
- `Registry` (registry.dfy): `StateRegistry` and its eight methods.
- `Factory` (factory.dfy): `StateFactory.__getattr__`/`make_state`, and
  `StateFactory.__call__`.
- `Render` (render.dfy): the loop in `render` that partitions `mod.func`
  names, and a small statement language standing for what a template does.
  It also holds worked examples over arbitrary module, function and id names.

A template is Python run by `exec`. The model represents it by the renderer
calls it makes (`Stmt`):

- `Invoke` is `Mod.func(id, **kwargs)`.
- `WithState` is `with Mod.func(id, **kwargs): body`.
- `WithRequisite` is `with Mod(target, relation): body`.
- `IncludeNames` is `include(*names)`.

`render` always builds a fresh `StateRegistry()` (line 293), so each render
starts from an empty registry. An extend is declared as
`Service.running(extend('apache'), ...)`: the id position takes the marker
that `make_extend` returns (lines 101-102), and `State.__init__` unwraps it
into the extend section (lines 198-200).

## Model

| member | source | states |
|---|---|---|
| Registry.Empty | renderers/pyobjects.py:52-56 | a fresh registry has no states, no extends, no includes and no open scopes |
| Registry.MakeExtend | renderers/pyobjects.py:101-102 | `make_extend(name)` is a marker carrying `name` and nothing else; MakeState stores a State declared with it in the extend section under that name (ExtendMarkerTargetsExtends) |
| Registry.Include | renderers/pyobjects.py:58-59 | `include(*args)` appends the names after the existing ones, in call order; states, extends and the stack are unchanged |
| Registry.PushRequisite | renderers/pyobjects.py:104-105 | the requisite becomes the new top of the stack, below it the old stack unchanged; the maps are unchanged |
| Registry.PopRequisite | renderers/pyobjects.py:107-108 | fails with IndexError exactly when the stack is empty; otherwise removes exactly the last entry and leaves the maps alone |
| Registry.PushThenPop | renderers/pyobjects.py:126-130 | entering and then leaving a scope guard gives back the registry exactly as it was |
| Registry.StackIsLifo | renderers/pyobjects.py:104-108 | after pushing a then b, the first pop removes b and the second removes a |
| Registry.AppendEdge | renderers/pyobjects.py:92-94 | one injection step succeeds iff the relation key is absent or holds a list; on success the key holds the old items followed by `{mod: id}`, and every other key is unchanged; otherwise the error is AttributeError on that relation |
| Registry.InjectSucceedsIff | renderers/pyobjects.py:89-94 | injecting the whole stack succeeds iff every active relation is absent or a list in the author's arguments |
| Registry.InjectFailure | renderers/pyobjects.py:89-94 | a failed injection names the relation of an active requisite whose value is not a list |
| Registry.InjectContents | renderers/pyobjects.py:89-94 | after injection each key holds the author's items followed by the records of the stack entries with that relation, oldest first; keys no entry targets are untouched |
| Registry.Inject | renderers/pyobjects.py:89-94 | the loop over the stack, oldest entry first; a failure is AttributeError on the relation of some stack entry. When it succeeds and what each key then holds are stated by InjectSucceedsIff and InjectContents |
| Registry.Store | renderers/pyobjects.py:96 | `attr[id_] = state` for a fresh id appends the state last in its section; the other section, the stack and the includes are unchanged |
| Registry.Add | renderers/pyobjects.py:80-96 | an id already in the target section raises DuplicateState before any argument changes; otherwise success iff injection can run. On success the state is last in its own section, the other section, the stack and the includes are unchanged, the state differs only in its arguments, and every argument is what the author gave followed by the stack's edges |
| Registry.Extend | renderers/pyobjects.py:98-99 | `extend` is `add` into the extend section: a duplicate there is rejected, success appends there and leaves `states` alone |
| Registry.SectionsAreIndependent | renderers/pyobjects.py:80-87 | with no scopes open, a fresh id can be added once to `states` and once to `extends`; adding it to `states` a second time raises DuplicateState |
| Registry.Serialise | renderers/pyobjects.py:62-65 | the serialised section keeps the section's ids in insertion order, and each id maps to its state's `state()` |
| Registry.SaltData | renderers/pyobjects.py:61-78 | the registry afterwards is the empty registry; an empty registry serialises to the empty mapping; `include` maps to the names when there are any; `extend` maps to the serialised extend section when it is non-empty; without either the document is just the serialised states |
| Registry.SaltDataLayout | renderers/pyobjects.py:61-74 | when no state id is `include` or `extend`, the document is the states in insertion order, then the `include` entry if any, then the `extend` entry if any |
| Registry.SaltDataKeyOrder | renderers/pyobjects.py:61-74 | under the same condition the document's keys are the state ids in insertion order, followed by `include` and then `extend` when each is present |
| Registry.SaltDataTwice | renderers/pyobjects.py:76-78 | a registry that has just been serialised serialises to the empty mapping |
| Values.Record | renderers/pyobjects.py:123-124 | `req()` is the one-key dict `{module: id}` |
| States.FullFunc | renderers/pyobjects.py:234-236 | `full_func` is the module, a '.', then the function |
| States.AsRecord | renderers/pyobjects.py:222-225 | one element of a requisite list: a StateRequisite becomes its `{module: id}` dict, anything else is kept as it is, so no StateRequisite survives |
| States.AsRequisiteList | renderers/pyobjects.py:217-225 | a requisite value comes out as a list: a non-list becomes a one-element list, and each element keeps its position, a StateRequisite becoming its dict; none is left as a StateRequisite |
| States.Normalise | renderers/pyobjects.py:211-225 | the keys stay the same and in order; requisite keys get their value as a list of records; every other entry is untouched |
| States.NormaliseIdempotent | renderers/pyobjects.py:207-225 | normalising already-normalised arguments changes nothing |
| States.Attrs | renderers/pyobjects.py:207-232 | `attrs` has one single-key dict per argument, keys strictly ascending, each drawn from the normalised arguments, and every normalised argument appears |
| States.AttrsIsTheSortedListing | renderers/pyobjects.py:229-232 | `attrs` equals the single-key dicts of any key-ascending permutation of the normalised arguments, so the sorted order is the only one |
| States.AttrsTwice | renderers/pyobjects.py:207-225 | since `attrs` normalises in place, a second call on the normalised arguments gives the same list |
| States.Call | renderers/pyobjects.py:241-244 | `state()` is a one-key dict from `full_func` to the `attrs` list |
| States.Guard | renderers/pyobjects.py:204-205 | the requisite a State pushes as a guard is a `require` edge whose record is `{module: id}` of the state itself |
| KeyOrder.BelowTotal | renderers/pyobjects.py:231 | of two distinct strings one is below the other, as `sorted` needs |
| KeyOrder.BelowTransitive | renderers/pyobjects.py:231 | the string order is transitive |
| KeyOrder.SortByKey | renderers/pyobjects.py:229-232 | sorting distinct keys gives a strictly key-ascending permutation of the input |
| KeyOrder.SortedUnique | renderers/pyobjects.py:229-232 | two strictly key-ascending listings with the same entries are equal |
| OrderedMaps.PutFresh | renderers/pyobjects.py:96 | storing a key not yet present appends the pair last, so insertion order is kept |
| OrderedMaps.PutGet | renderers/pyobjects.py:68 | after `d[k] = v`, `d[k]` is `v` |
| OrderedMaps.PutOther | renderers/pyobjects.py:71 | `d[k] = v` leaves every other key's entry as it was |
| Factory.GetAttr | renderers/pyobjects.py:155-158 | `Factory.<func>` raises InvalidFunction iff the whitelist is non-empty and lacks `func`; an empty whitelist allows every function |
| Factory.Clash | renderers/pyobjects.py:160-167 | reports a keyword that collides with a parameter of `make_state` or `State.__init__` exactly when one exists, and names the one Python's TypeError names: `id_` first (the `make_state` call), then `registry` (the duplicate keyword at the `State(...)` call), then one of `self`/`module`/`func` that was passed |
| Factory.IdName | renderers/pyobjects.py:198-200 | the id a State is stored under: the id itself, or the name an extend marker made by `make_extend` carries |
| Factory.MakeState | renderers/pyobjects.py:191-202 | a clashing keyword raises TypeError; a plain id is added to `states`; an extend marker is added to `extends` under its name; the state's id, module and function are the ones given |
| Factory.Declare | renderers/pyobjects.py:155-168 | a function outside a non-empty whitelist raises InvalidFunction; a success used a whitelisted function and gives the state that module and function |
| Factory.CallFactory | renderers/pyobjects.py:170-176 | `Factory(id, relation)` is a requisite of that relation whose record is `{module: id}`; the registry is not involved |
| Factory.ExtendMarkerTargetsExtends | renderers/pyobjects.py:198-200 | a State whose id is `extend(name)` lands last in `extends` under `name`, and `states` is untouched |
| Factory.DeclareSucceeds | renderers/pyobjects.py:155-168 | with no scope open, a whitelisted function, no clashing keyword and a fresh id, a declaration always succeeds |
| Render.SplitDot | renderers/pyobjects.py:300 | `name.split(".")` unpacks into two parts iff the name has exactly one '.', and the parts joined with '.' give back the name |
| Render.SplitJoin | renderers/pyobjects.py:300 | a module and a function without dots, joined with '.', split back into exactly that module and function |
| Render.SplitFullFunc | renderers/pyobjects.py:234-236 | a state's `full_func` splits back into its module and function |
| Render.AddName | renderers/pyobjects.py:300-303 | one pass of the loop: the name splits on its one '.' or the loop fails naming it; on success the module's list (created when absent) gains the function at its end, and the rest is as it was |
| Render.Partition | renderers/pyobjects.py:298-303 | the loop that builds `_st_funcs`; a failure names one of the given names. When it succeeds and what each module maps to are stated by PartitionSucceedsIff, PartitionFailure and PartitionContents |
| Render.PartitionSucceedsIff | renderers/pyobjects.py:298-303 | the partition loop succeeds iff every name has exactly one '.' |
| Render.PartitionFailure | renderers/pyobjects.py:298-303 | a failing partition reports the first name that does not split in two |
| Render.PartitionContents | renderers/pyobjects.py:298-303 | each module maps to exactly its functions among the names, in the order given; modules with no function are absent |
| Render.Bind | renderers/pyobjects.py:307-319 | a module gets a factory whose whitelist is its functions; a module without functions has no binding (NameError) |
| Render.RunAll | renderers/pyobjects.py:126-130 | running a sequence of statements that succeeds leaves the scope stack as it found it |
| Render.Run | renderers/pyobjects.py:126-130 | a statement that succeeds leaves the scope stack as it found it, `with` blocks included |
| Render.RenderTemplate | renderers/pyobjects.py:293-303 | an available name that does not split in two makes the render fail with that error |
| Render.UnlistedFunctionRejected | renderers/pyobjects.py:155-158 | a function not listed for its module is rejected with InvalidFunction when the template calls it |
| Render.RenderOneState | renderers/pyobjects.py:61-65 | one declaration `Mod.func(id, **kw)` renders to `{id: {'mod.func': attrs(kw)}}` |
| Render.RenderNestedScope | renderers/pyobjects.py:89-96 | a declaration inside `with Mod.func(a):` renders with `require: [{mod: a}]`, after the guard state |
| Render.RenderStateAndExtend | renderers/pyobjects.py:70-74 | one id declared once plainly and once as an extend renders as the state followed by `extend: {id: ...}` |
| Render.RenderInvalidFunction | renderers/pyobjects.py:155-158 | calling a function outside the module's list fails the render with InvalidFunction |
| Render.RenderDuplicateState | renderers/pyobjects.py:86-87 | declaring one id twice fails the render with DuplicateState |
| Render.RenderSingleRequisiteInScope | renderers/pyobjects.py:92-94 | inside a requisite scope, a `require` argument given as a single non-list value fails with AttributeError rather than being wrapped |

## Left out

- Running the template and the string-built `StateFactory(...)` commands with `exec` (lines 311-319, 342-345): a template is represented by the renderer calls it makes (`Stmt`).
- The `sys.version` branch: it only picks the Python 2 or 3 `exec` syntax.
- `state_loader(__opts__, __salt__)` (line 295): the list of available `mod.func` names is a parameter of `RenderTemplate`.
- `SaltObject` and the `salt`/`pillar`/`grains`/`mine`/dunder bindings (lines 253-283, 326-340): these wrap Salt's loader dicts, which this model does not include.
- Logging and `State.__str__` (lines 238-239): display text only.
- `include` and `extend` are bound as template globals (lines 322-323); `IncludeNames` and `Ext(StateExtend(name))` stand for those calls.
- The name under which a factory is bound, `mod.capitalize()` (line 310): statements name the module directly. Two modules that capitalise to the same name would shadow each other in Python; the model keeps them apart.
- The `_st_funcs[mod].sort()` at line 309: it reorders a whitelist that is only used for membership, so the order does not matter.
- Real attributes of a factory (`File.module`, `File.registry`, `File.valid_funcs`) shadow `__getattr__` in Python and are not treated as function names. The model treats every function name alike.
- Python list aliasing: a list passed as a requisite value and shared with other code sees the injected edges too. Values here are immutable.
- A State object passed as a keyword value, and requisite values other than `Str`/`Int`/`Bool`/dicts/lists/StateRequisite objects.
- The `StateRequisite.registry` and `State.registry` back-references: the registry is threaded through the operations instead.
- Factory.Declare: the arguments reach `add` untouched, but when `.append` raises on a non-list midway through `add`'s loop (lines 91-94), that loop has already created or extended the lists for the earlier requisites in the State's arguments. The model returns the error and discards the state, so it does not state what that half-injected State object looks like. The registry is unchanged either way.
- Catching an exception inside a template: `Stmt` has no `try`, so a failing statement ends the whole render. In Python, code that catches a renderer exception carries on, and a `with` block it leaves by an exception still pops its scope (lines 129-130, 249-250); the model has no path that shows this.
- Registry.SaltData: when a state's id is itself `include` or `extend`, Python's `states['include'] = ...` overwrites that state's entry in place. The model does the same through `Put`, but SaltDataLayout and SaltDataKeyOrder state the layout only for ids other than those two.
- Factory.Clash: when more than one of `self`, `module` and `func` is passed as a keyword, Python 2 (which this renderer needs: `exec ... in` at lines 318 and 345, `iteritems` at 64 and 73) meets the `**kwargs` dict in its hash order, so which one the TypeError names depends on string hashes and dict size. The model names the first in argument order, as Python 3.6 and later do, which is not what Python 2 does.
