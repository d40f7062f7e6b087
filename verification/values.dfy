/**
 * The data a pyobjects template hands to the renderer: keyword-argument
 * values, requisite edges, extend markers and the errors the renderer raises.
 */
module Values {
  import opened Wrappers
  import opened OrderedMaps

  /** The requisite relations whose values the renderer normalises. */
  const REQUISITES: seq<string> := ["require", "watch", "use", "require_in", "watch_in", "use_in"]

  /**
   * A `StateRequisite`: an edge of kind `relation` to the state `id` of
   * salt module `mod`. The relation is whatever string the caller passed;
   * it is not checked against REQUISITES.
   */
  datatype StateRequisite = StateRequisite(relation: string, mod: string, id: string)

  /** A Python value given as a keyword argument, or produced while serialising. */
  datatype Value =
    | Str(s: string)
    | Int(i: int)
    | Bool(b: bool)
    | Req(req: StateRequisite)               // a StateRequisite object itself
    | Dict(entries: seq<(string, Value)>)
    | List(items: seq<Value>)

  /** The keyword arguments of a state: a dict, so its keys are unique. */
  type Kwargs = kw: seq<(string, Value)> | UniqueKeys(kw)

  /** A serialised document: an ordered dict from ids to data. */
  type Document = seq<(string, Value)>

  /** The record `req()` returns: `{mod: id}`. */
  function Record(req: StateRequisite): (r: Value)
    ensures r.Dict? && Keys(r.entries) == [req.mod]
    ensures Get(r.entries, req.mod) == Some(Str(req.id))
  {
    Dict([(req.mod, Str(req.id))])
  }

  /** `StateExtend`: marks an id as belonging to the extend section. */
  datatype StateExtend = StateExtend(name: string)

  /** The first argument of a state call: a plain id, or an extend marker. */
  datatype StateId = Plain(id: string) | Ext(marker: StateExtend)

  /** The exceptions the renderer's core raises. */
  datatype Error =
    | DuplicateState(id: string)                // DuplicateState
    | InvalidFunction(func: string, mod: string)   // InvalidFunction
    | NotAList(relation: string)                // AttributeError: `.append` on a non-list
    | MultipleValues(keyword: string)           // TypeError: keyword clashes with a parameter
    | EmptyStack                                // IndexError: `del requisites[-1]` on []
    | MalformedName(name: string)               // ValueError: `mod.func` did not split in two
    | UndefinedName(mod: string)             // NameError: no factory bound for the module
}
