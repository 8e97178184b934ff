/**
 * The tool registry of app/services/tools_manager.py: a map from names to tools, which
 * the agent can list and call by name.
 *
 * A tool is a function from its keyword arguments to its outcome: the value its
 * coroutine returns, or the exception it raises.
 */
module Tools {
  import opened Control

  /** The keyword arguments of a call (`Dict[str, Any]`). */
  type Args = map<string, Json>

  /** How a call ends: a returned value (`JNull` is `None`) or a raised exception. */
  datatype Outcome = Returned(value: Json) | Raised(error: string)

  type Tool = Args -> Outcome

  /** What `execute_tool` does with a registry: `None` for an unknown name, else the tool's outcome. */
  function Dispatch(tools: map<string, Tool>, name: string, args: Args): Outcome {
    if name !in tools then Returned(JNull) else tools[name](args)
  }

  /**
   * Lines 14-17: registering adds `name` or replaces its function, and every other
   * name keeps its entry, or its absence.
   */
  lemma RegisterChangesOneName(tools: map<string, Tool>, name: string, f: Tool)
    ensures name in tools[name := f] && tools[name := f][name] == f
    ensures forall n :: n != name ==> (n in tools[name := f] <==> n in tools)
    ensures forall n :: n != name && n in tools ==> tools[name := f][n] == tools[n]
    ensures tools[name := f].Keys == tools.Keys + {name}
  {
  }

  /**
   * Lines 24-35: after registering `f` as `name`, calling `name` gives what `f` gives,
   * exceptions included, and calls of other names are unaffected.
   */
  lemma DispatchAfterRegister(tools: map<string, Tool>, name: string, f: Tool, args: Args)
    ensures Dispatch(tools[name := f], name, args) == f(args)
    ensures forall n :: n != name ==> Dispatch(tools[name := f], n, args) == Dispatch(tools, n, args)
  {
  }

  /** Lines 26-28: a name that was never registered gives `None`. */
  lemma DispatchUnknown(tools: map<string, Tool>, name: string, args: Args)
    requires name !in tools
    ensures Dispatch(tools, name, args) == Returned(JNull)
  {
  }

  class ToolsManager {
    /** `_tools`. */
    var tools: map<string, Tool>
    /** The calls made to registered tools, in order. */
    var invocations: seq<(string, Args)>

    /** Lines 11-12: an empty registry. */
    constructor ()
      ensures tools == map[] && invocations == []
    {
      tools := map[];
      invocations := [];
    }

    /** Lines 14-17. */
    method RegisterTool(name: string, f: Tool)
      modifies this`tools
      ensures tools == old(tools)[name := f]
    {
      tools := tools[name := f];
    }

    /** Lines 19-22: schema generation is not implemented; the list is always empty. */
    method GetToolDefinitions() returns (definitions: seq<Json>)
      ensures definitions == []
    {
      definitions := [];
    }

    /**
     * Lines 24-35: an unknown name returns `None` and calls nothing; a known name calls
     * its tool once with `args`, returns its value and re-raises its exception.
     */
    method ExecuteTool(name: string, args: Args) returns (r: Outcome)
      modifies this`invocations
      ensures r == Dispatch(tools, name, args)
      ensures invocations == old(invocations) + (if name in tools then [(name, args)] else [])
    {
      if name !in tools {
        return Returned(JNull);
      }
      invocations := invocations + [(name, args)];
      var outcome := tools[name](args);
      match outcome
      case Returned(v) => r := Returned(v);
      case Raised(e) => r := Raised(e);   // line 35: `raise e`
    }
  }

  /** A fresh manager knows no tools: every call gives `None`, even after listing its definitions. */
  method FreshManagerScenario(name: string, args: Args) returns (r: Outcome, definitions: seq<Json>)
    ensures r == Returned(JNull) && definitions == []
  {
    var m := new ToolsManager();
    definitions := m.GetToolDefinitions();
    r := m.ExecuteTool(name, args);
  }
}
