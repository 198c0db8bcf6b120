/** The page-side stub (`window.DisplayLib`, the bridge script that
    `render_page` injects, displaylib.py): `callPython` sends the call and
    resolves with `null` at once; the lookups parse the host's JSON answer;
    `setVariable` sends the JSON text of a value.  `pyBridge` is null while
    the page has no bridge. */
module Guest {
  import opened Wrappers
  import opened Values
  import opened Json
  import opened DisplayStore
  import opened Window
  import opened Bridge

  /** How a promise returned by `callPython` settles. */
  datatype Promise = Resolved(value: Value) | Rejected(reason: string)

  /** `result ? JSON.parse(result) : null`: the empty answer reads as
      `null`, any other is parsed; `None` is the exception `JSON.parse`
      throws on text that is not JSON. */
  function ParseAnswer(c: Codec, result: string): (r: Option<Value>)
    ensures result == "" ==> r == Some(Null)
    ensures result != "" ==> r == c.loads(result)
  {
    if result == "" then Some(Null) else c.loads(result)
  }

  /** What a lookup through the bridge gives the page: exactly the stored
      value, or `null` for an unknown name.  Parsing the host's answer
      never throws. */
  lemma {:induction false} LookupParses(c: Codec, m: map<string, Value>, name: string)
    requires Lawful(c)
    ensures ParseAnswer(c, Lookup(c, m, name)) == Some(Get(m, name))
    ensures name !in m ==> ParseAnswer(c, Lookup(c, m, name)) == Some(Null)
  {
    var answer := Lookup(c, m, name);
    assert answer != "";
  }

  /** Round trip from the page: a value written with `setVariable` is what
      `getVariable` of the same name then gives, whatever the value. */
  lemma {:induction false} SetThenGetFromPage(c: Codec, s: Store, name: string, v: Value)
    requires Lawful(c)
    ensures var t := Serve(c, s, Request.SetVariable(name, c.dumps(v))).0;
      ParseAnswer(c, Serve(c, t, Request.GetVariable(name)).1.value) == Some(v)
  {
    LenientUndoesDumps(c, v);
    LookupParses(c, WithVariable(s, name, v).variables, name);
  }

  /** Text that is not JSON, written straight to the bridge, reads back in
      the page as that text: "not json" reads as the string "not json". */
  lemma {:induction false} RawTextReadsBack(c: Codec, s: Store, name: string, text: string)
    requires Lawful(c)
    requires c.loads(text) == None
    ensures var t := Serve(c, s, Request.SetVariable(name, text)).0;
      ParseAnswer(c, Serve(c, t, Request.GetVariable(name)).1.value) == Some(Str(text))
  {
    LookupParses(c, WithVariable(s, name, Str(text)).variables, name);
  }

  /** `getConstant(name)`. */
  function GetConstant(pyBridge: JSBridge?, name: string): (r: Value)
    reads if pyBridge == null then {} else {pyBridge.lib}
    requires pyBridge != null ==> Lawful(pyBridge.codec)
    ensures pyBridge == null ==> r == Null
    ensures pyBridge != null ==> r == Get(pyBridge.lib.constants, name)
  {
    if pyBridge == null then Null
    else
      var result := pyBridge.GetConstant(name);
      LookupParses(pyBridge.codec, pyBridge.lib.constants, name);
      ParseAnswer(pyBridge.codec, result).value
  }

  /** `getVariable(name)`. */
  function GetVariable(pyBridge: JSBridge?, name: string): (r: Value)
    reads if pyBridge == null then {} else {pyBridge.lib}
    requires pyBridge != null ==> Lawful(pyBridge.codec)
    ensures pyBridge == null ==> r == Null
    ensures pyBridge != null ==> r == Get(pyBridge.lib.variables, name)
  {
    if pyBridge == null then Null
    else
      var result := pyBridge.GetVariable(name);
      LookupParses(pyBridge.codec, pyBridge.lib.variables, name);
      ParseAnswer(pyBridge.codec, result).value
  }

  /** `setVariable(name, value)`: true when sent.  The host decodes what
      `JSON.stringify` produced, so the value itself is stored. */
  method SetVariable(pyBridge: JSBridge?, name: string, value: Value) returns (sent: bool)
    requires pyBridge != null ==> Lawful(pyBridge.codec)
    modifies if pyBridge == null then {} else {pyBridge.lib}
    ensures sent == (pyBridge != null)
    ensures pyBridge != null ==>
      pyBridge.lib.State() == WithVariable(old(pyBridge.lib.State()), name, value)
  {
    if pyBridge != null {
      pyBridge.SetVariable(name, pyBridge.codec.dumps(value));
      LenientUndoesDumps(pyBridge.codec, value);
      return true;
    }
    return false;
  }

  /** `callPython(funcName, ...args)`: with a bridge, the call is sent and
      the promise resolves with `null`, whatever the handler returned or
      raised; without one it is rejected. */
  method CallPython(pyBridge: JSBridge?, funcName: string, args: seq<Value>) returns (p: Promise)
    requires pyBridge != null ==> pyBridge.Valid()
    modifies if pyBridge == null then {} else {pyBridge.lib}
    ensures pyBridge != null ==>
      p == Resolved(Null) && pyBridge.lib.State() == Dispatch(old(pyBridge.lib.State()), funcName, args)
    ensures pyBridge == null ==> p == Rejected("Python bridge not available")
  {
    if pyBridge != null {
      pyBridge.CallPythonFunction(funcName, args);
      p := Resolved(Null);
    } else {
      p := Rejected("Python bridge not available");
    }
  }
}
