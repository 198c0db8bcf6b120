/** The object the page reaches as `pyBridge` (`JSBridge`,
    displaylib.py): one slot that forwards a call to the window's
    dispatcher, two read-only lookups that answer JSON text, and a lenient
    write that never raises. */
module Bridge {
  import opened Wrappers
  import opened Values
  import opened Json
  import opened DisplayStore
  import opened Handlers
  import opened Window

  /** The JSON text answered for a name: the encoding of the stored value,
      or of `None` when the name is unknown. */
  function Lookup(c: Codec, m: map<string, Value>, name: string): (r: string)
    requires Lawful(c)
    ensures c.loads(r) == Some(Get(m, name))
    ensures name !in m ==> r == "null"
    ensures r != ""
  {
    c.dumps(Get(m, name))
  }

  /** The value stored for JSON text: the decoded value, or, when the
      text is not JSON, the text itself as a string. */
  function Lenient(c: Codec, text: string): (r: Value)
    ensures c.loads(text).Some? ==> r == c.loads(text).value
    ensures c.loads(text).None? ==> r == Str(text)
  {
    match c.loads(text)
    case Some(v) => v
    case None => Str(text)
  }

  /** Encoding a value and storing it leniently stores that value. */
  lemma LenientUndoesDumps(c: Codec, v: Value)
    requires Lawful(c)
    ensures Lenient(c, c.dumps(v)) == v
  {
  }

  /** What the page can ask of the bridge. */
  datatype Request =
    | CallPythonFunction(funcName: string, args: seq<Value>)
    | GetConstant(name: string)
    | GetVariable(name: string)
    | SetVariable(name: string, text: string)

  /** The tables after a request and the text answered, if the slot answers. */
  function Serve(c: Codec, s: Store, req: Request): (r: (Store, Option<string>))
    requires Lawful(c)
    ensures r.0.constants == s.constants && r.0.methods == s.methods
    ensures req.GetConstant? || req.GetVariable? ==> r.0 == s && r.1.Some?
    ensures req.GetConstant? ==> c.loads(r.1.value) == Some(Get(s.constants, req.name))
    ensures req.GetVariable? ==> c.loads(r.1.value) == Some(Get(s.variables, req.name))
    ensures req.SetVariable? ==> r.0 == WithVariable(s, req.name, Lenient(c, req.text)) && r.1 == None
    ensures req.CallPythonFunction? ==> r.0 == Dispatch(s, req.funcName, req.args) && r.1 == None
  {
    match req
    case CallPythonFunction(f, args) => (Dispatch(s, f, args), None)
    case GetConstant(name) => (s, Some(Lookup(c, s.constants, name)))
    case GetVariable(name) => (s, Some(Lookup(c, s.variables, name)))
    case SetVariable(name, text) => (WithVariable(s, name, Lenient(c, text)), None)
  }

  /** The tables after a sequence of requests. */
  function ServeAll(c: Codec, s: Store, reqs: seq<Request>): (r: Store)
    requires Lawful(c)
    decreases |reqs|
  {
    if reqs == [] then s else ServeAll(c, Serve(c, s, reqs[0]).0, reqs[1..])
  }

  /** Constants and the method table are the host's: nothing the page can
      ask of the bridge changes them. */
  lemma {:induction false} PageCannotChangeConstantsOrMethods(c: Codec, s: Store, reqs: seq<Request>)
    requires Lawful(c)
    ensures ServeAll(c, s, reqs).constants == s.constants
    ensures ServeAll(c, s, reqs).methods == s.methods
    decreases |reqs|
  {
    if reqs != [] {
      PageCannotChangeConstantsOrMethods(c, Serve(c, s, reqs[0]).0, reqs[1..]);
    }
  }

  /** A name written through the bridge reads back, through the bridge, as
      the value the text decodes to, or as the text itself when it is not
      JSON: `set_variable("counter", "not json")` makes `get_variable`
      answer the JSON encoding of the string "not json". */
  lemma WriteThenRead(c: Codec, s: Store, name: string, text: string)
    requires Lawful(c)
    ensures var t := Serve(c, s, SetVariable(name, text)).0;
      c.loads(Serve(c, t, GetVariable(name)).1.value) ==
        if c.loads(text).Some? then c.loads(text) else Some(Str(text))
  {
  }

  /** The bridge's `set_variable` writes any variable without going
      through a handler, so the demo's invariants do not survive it: a
      page can store a theme other than "light" or "dark", or an `items`
      that is not a list (the demo page itself writes `theme` and
      `counter` this way). */
  lemma SetVariableBypassesChecks(c: Codec, s: Store)
    requires Lawful(c)
    ensures !ThemeValid(Serve(c, s, SetVariable("theme", c.dumps(Str("blue")))).0)
    ensures !ItemsWithinMax(Serve(c, s, SetVariable("items", c.dumps(Str("many")))).0)
  {
    LenientUndoesDumps(c, Str("blue"));
    LenientUndoesDumps(c, Str("many"));
  }

  /** The bridge object created for a window: it reads and writes the
      window's store and forwards calls to the window's `handle_js_call`,
      the one slot its signal is connected to. */
  class JSBridge {
    const window: DisplayWindow
    const lib: DisplayLib
    const codec: Codec

    constructor (window: DisplayWindow, codec: Codec)
      ensures this.window == window && lib == window.lib && this.codec == codec
    {
      this.window := window;
      lib := window.lib;
      this.codec := codec;
    }

    /** The bridge reaches the same store as the window it forwards to. */
    predicate Valid() {
      lib == window.lib
    }

    /** `call_python_function`: emits the call, which the window
        dispatches; nothing is answered. */
    method CallPythonFunction(funcName: string, args: seq<Value>)
      requires Valid()
      modifies lib
      ensures lib.State() == Dispatch(old(lib.State()), funcName, args)
    {
      window.HandleJsCall(funcName, args);
    }

    /** `get_constant`: the JSON text of the constant, `null` if unknown. */
    function GetConstant(name: string): (r: string)
      reads lib
      requires Lawful(codec)
      ensures codec.loads(r) == Some(Get(lib.constants, name))
      ensures name !in lib.constants ==> r == "null"
      ensures r != ""
    {
      Lookup(codec, lib.constants, name)
    }

    /** `get_variable`: the JSON text of the variable, `null` if unknown. */
    function GetVariable(name: string): (r: string)
      reads lib
      requires Lawful(codec)
      ensures codec.loads(r) == Some(Get(lib.variables, name))
      ensures name !in lib.variables ==> r == "null"
      ensures r != ""
    {
      Lookup(codec, lib.variables, name)
    }

    /** `set_variable`: stores the decoded value, or the raw text when it
        does not decode; only that variable changes. */
    method SetVariable(name: string, value: string)
      modifies lib
      ensures lib.State() == WithVariable(old(lib.State()), name, Lenient(codec, value))
    {
      lib.variables := lib.variables[name := Lenient(codec, value)];
    }
  }
}
