/** The host-side state store (`DisplayLib`, displaylib.py): three
    string-keyed tables of constants, variables and methods.  Defining or
    setting a name overwrites whatever was there; reading an unknown name
    gives `None`. */
module DisplayStore {
  import opened Values

  /** The callables that can be registered as methods: the demo's bound
      handlers, by name of the Python method they stand for. */
  datatype Handler = IncrementCounter | AddItem | GetItems | ChangeTheme

  /** A snapshot of the three tables. */
  datatype Store = Store(
    constants: map<string, Value>,
    variables: map<string, Value>,
    methods: map<string, Handler>)

  /** Python's `dict.get(name)`: the stored value, or `None` when `name` is
      not a key.  A key stored with `None` and a missing key read alike. */
  function Get(m: map<string, Value>, name: string): (r: Value)
    ensures name in m ==> r == m[name]
    ensures name !in m ==> r == Null
  {
    if name in m then m[name] else Null
  }

  /** `variables[name] = value` on a snapshot. */
  function WithVariable(s: Store, name: string, value: Value): (r: Store)
    ensures r.constants == s.constants && r.methods == s.methods
    ensures name in r.variables && r.variables[name] == value
    ensures r.variables - {name} == s.variables - {name}
  {
    s.(variables := s.variables[name := value])
  }

  /** Write-then-read: whatever was written under a name is what reading
      that name returns, and no other name reads differently. */
  lemma SetThenGet(s: Store, name: string, value: Value, other: string)
    ensures Get(WithVariable(s, name, value).variables, name) == value
    ensures other != name ==> Get(WithVariable(s, name, value).variables, other) == Get(s.variables, other)
  {
  }

  /** The store object.  Its three tables are updated in place. */
  class DisplayLib {
    var constants: map<string, Value>
    var variables: map<string, Value>
    var methods: map<string, Handler>

    /** The tables as a value. */
    function State(): Store
      reads this
    {
      Store(constants, variables, methods)
    }

    /** A store with three empty tables. */
    constructor ()
      ensures constants == map[] && variables == map[] && methods == map[]
    {
      constants := map[];
      variables := map[];
      methods := map[];
    }

    /** Registers a constant; an existing one of that name is replaced. */
    method DefineConstant(name: string, value: Value)
      modifies this
      ensures constants == old(constants)[name := value]
      ensures variables == old(variables) && methods == old(methods)
    {
      constants := constants[name := value];
    }

    /** Registers a variable, `None` unless an initial value is given; an
        existing one of that name is replaced. */
    method DefineVariable(name: string, initialValue: Value := Null)
      modifies this
      ensures variables == old(variables)[name := initialValue]
      ensures constants == old(constants) && methods == old(methods)
    {
      variables := variables[name := initialValue];
    }

    /** Registers a callable under a name; an existing one is replaced. */
    method DefineMethod(name: string, method_: Handler)
      modifies this
      ensures methods == old(methods)[name := method_]
      ensures constants == old(constants) && variables == old(variables)
    {
      methods := methods[name := method_];
    }

    /** The value of a variable, or `None` for a name never defined. */
    function GetVariable(name: string): (r: Value)
      reads this
      ensures name in variables ==> r == variables[name]
      ensures name !in variables ==> r == Null
    {
      Get(variables, name)
    }

    /** Sets a variable, defined or not. */
    method SetVariable(name: string, value: Value)
      modifies this
      ensures State() == WithVariable(old(State()), name, value)
      ensures GetVariable(name) == value
    {
      variables := variables[name := value];
    }
  }
}
