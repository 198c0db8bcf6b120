/** The demo's handlers (`DisplayLibDemo`, displaylib.py): the callables
    that `setup_demo` registers as methods.  Each reads and writes the
    store's variables and reports a return value or an exception.  A
    handler is given twice: a function on a `Store` snapshot that says what
    one call does, and a method that does it to a `DisplayLib` in place, as
    the Python code does.  The `lib` parameter of the methods is the demo's
    `self.display_lib`. */
module Handlers {
  import opened Values
  import opened DisplayStore

  /** What a call does: the tables afterwards and what the call returned or
      raised. */
  datatype Step = Step(store: Store, outcome: Outcome<Value>)

  /** The only variable a handler may write. */
  function Touches(h: Handler): string {
    match h
    case IncrementCounter => "counter"
    case AddItem => "items"
    case GetItems => "items"
    case ChangeTheme => "theme"
  }

  /** `increment_counter(amount)`: `counter + amount` is stored in
      `counter` and returned; when `+` raises, nothing is stored. */
  function IncrementCounterStep(s: Store, amount: Value): (r: Step)
    ensures r.store.constants == s.constants && r.store.methods == s.methods
    ensures r.store.variables - {"counter"} == s.variables - {"counter"}
    ensures var c := Get(s.variables, "counter");
      AsInt(c).Some? && AsInt(amount).Some? ==>
        r.outcome == Returned(Int(AsInt(c).value + AsInt(amount).value))
    ensures r.outcome.Returned? ==> Get(r.store.variables, "counter") == r.outcome.value
    ensures r.outcome.Raised? ==> r.outcome.error == TypeError && r.store == s
    ensures "counter" !in s.variables ==> r.outcome == Raised(TypeError)
    ensures r.outcome == Add(Get(s.variables, "counter"), amount)
    ensures r.outcome.Returned? ==> r.store == WithVariable(s, "counter", r.outcome.value)
  {
    match Add(Get(s.variables, "counter"), amount)
    case Raised(e) => Step(s, Raised(e))
    case Returned(v) => Step(WithVariable(s, "counter", v), Returned(v))
  }

  /** `add_item(item)`: appends `item` to the list `items` and returns True
      while the list is shorter than the constant `MAX_ITEMS`; otherwise
      returns False and leaves the list alone.  `len` of a non-container,
      a missing `MAX_ITEMS`, a non-numeric `MAX_ITEMS` and appending to a
      str or dict raise, before anything is stored. */
  function AddItemStep(s: Store, item: Value): (r: Step)
    ensures r.store.constants == s.constants && r.store.methods == s.methods
    ensures r.store.variables - {"items"} == s.variables - {"items"}
    ensures r.outcome == Returned(Bool(true)) || r.store == s
    ensures r.outcome == Returned(Bool(true)) ==>
      && Get(s.variables, "items").List?
      && Get(r.store.variables, "items") == List(Get(s.variables, "items").elems + [item])
    ensures var items := Get(s.variables, "items");
      items.List? && "MAX_ITEMS" in s.constants && AsInt(s.constants["MAX_ITEMS"]).Some? ==>
        r.outcome == Returned(Bool(|items.elems| < AsInt(s.constants["MAX_ITEMS"]).value))
    ensures Len(Get(s.variables, "items")).Raised? ==> r.outcome == Raised(TypeError)
    ensures Len(Get(s.variables, "items")).Returned? && "MAX_ITEMS" !in s.constants ==>
      r.outcome == Raised(KeyError)
    ensures var items := Get(s.variables, "items");
      Len(items).Returned? && "MAX_ITEMS" in s.constants && AsInt(s.constants["MAX_ITEMS"]).None? ==>
        r.outcome == Raised(TypeError)
    ensures var items := Get(s.variables, "items");
      (items.Str? || items.Obj?) && "MAX_ITEMS" in s.constants && AsInt(s.constants["MAX_ITEMS"]).Some? ==>
        r.outcome == if Len(items).value < AsInt(s.constants["MAX_ITEMS"]).value
          then Raised(AttributeError) else Returned(Bool(false))
  {
    var items := Get(s.variables, "items");
    match Len(items)
    case Raised(e) => Step(s, Raised(e))
    case Returned(n) =>
      if "MAX_ITEMS" !in s.constants then Step(s, Raised(KeyError))
      else match LessThan(n, s.constants["MAX_ITEMS"])
        case Raised(e) => Step(s, Raised(e))
        case Returned(below) =>
          if !below then Step(s, Returned(Bool(false)))
          else if !items.List? then Step(s, Raised(AttributeError))
          else Step(WithVariable(s, "items", List(items.elems + [item])), Returned(Bool(true)))
  }

  /** `get_items()`: returns `items` and changes nothing. */
  function GetItemsStep(s: Store): (r: Step)
    ensures r.store == s
    ensures r.outcome == Returned(Get(s.variables, "items"))
  {
    Step(s, Returned(Get(s.variables, "items")))
  }

  /** `change_theme(new_theme)`: only "light" and "dark" are accepted; an
      accepted theme is stored and True returned, anything else leaves the
      store alone and returns False. */
  function ChangeThemeStep(s: Store, newTheme: Value): (r: Step)
    ensures r.outcome == Returned(Bool(newTheme == Str("light") || newTheme == Str("dark")))
    ensures r.outcome == Returned(Bool(true)) ==> r.store == WithVariable(s, "theme", newTheme)
    ensures r.outcome == Returned(Bool(false)) ==> r.store == s
  {
    if newTheme in [Str("light"), Str("dark")] then
      Step(WithVariable(s, "theme", newTheme), Returned(Bool(true)))
    else
      Step(s, Returned(Bool(false)))
  }

  /** Whether Python's call `f(*args)` binds `args` to the handler's
      parameters: `increment_counter` takes zero or one (its `amount`
      defaults to 1), `add_item` and `change_theme` exactly one, `get_items`
      none. */
  predicate Binds(h: Handler, args: seq<Value>) {
    match h
    case IncrementCounter => |args| <= 1
    case AddItem => |args| == 1
    case GetItems => |args| == 0
    case ChangeTheme => |args| == 1
  }

  /** The call `f(*args)` of a registered handler: a `TypeError` when the
      arguments do not bind, otherwise the handler's step.  No handler
      touches the constants or the registry or a variable other than its
      own, and a call that raises has changed nothing. */
  function Invoke(h: Handler, s: Store, args: seq<Value>): (r: Step)
    ensures r.store.constants == s.constants && r.store.methods == s.methods
    ensures r.store.variables - {Touches(h)} == s.variables - {Touches(h)}
    ensures r.outcome.Raised? ==> r.store == s
    ensures !Binds(h, args) ==> r == Step(s, Raised(TypeError))
    ensures h == Handler.IncrementCounter && args == [] ==> r == IncrementCounterStep(s, Int(1))
    ensures h == Handler.IncrementCounter && |args| == 1 ==> r == IncrementCounterStep(s, args[0])
    ensures h == Handler.AddItem && |args| == 1 ==> r == AddItemStep(s, args[0])
    ensures h == Handler.GetItems && args == [] ==> r == GetItemsStep(s)
    ensures h == Handler.ChangeTheme && |args| == 1 ==> r == ChangeThemeStep(s, args[0])
  {
    if !Binds(h, args) then Step(s, Raised(TypeError))
    else match h
      case IncrementCounter => IncrementCounterStep(s, if |args| == 0 then Int(1) else args[0])
      case AddItem => AddItemStep(s, args[0])
      case GetItems => GetItemsStep(s)
      case ChangeTheme => ChangeThemeStep(s, args[0])
  }

  /** The theme is one of the two the demo accepts. */
  predicate ThemeValid(s: Store) {
    Get(s.variables, "theme") == Str("light") || Get(s.variables, "theme") == Str("dark")
  }

  /** The item list is a list no longer than the integer `MAX_ITEMS`. */
  predicate ItemsWithinMax(s: Store) {
    && "MAX_ITEMS" in s.constants && s.constants["MAX_ITEMS"].Int?
    && Get(s.variables, "items").List?
    && |Get(s.variables, "items").elems| <= s.constants["MAX_ITEMS"].i
  }

  method IncrementCounter(lib: DisplayLib, amount: Value := Int(1)) returns (r: Outcome<Value>)
    modifies lib
    ensures Step(lib.State(), r) == IncrementCounterStep(old(lib.State()), amount)
  {
    var current := lib.GetVariable("counter");
    r := Add(current, amount);
    if r.Returned? {
      lib.SetVariable("counter", r.value);
    }
  }

  method AddItem(lib: DisplayLib, item: Value) returns (r: Outcome<Value>)
    modifies lib
    ensures Step(lib.State(), r) == AddItemStep(old(lib.State()), item)
  {
    var items := lib.GetVariable("items");
    var n := Len(items);
    if n.Raised? {
      return Raised(n.error);
    }
    if "MAX_ITEMS" !in lib.constants {
      return Raised(KeyError);
    }
    var below := LessThan(n.value, lib.constants["MAX_ITEMS"]);
    if below.Raised? {
      return Raised(below.error);
    }
    if below.value {
      if !items.List? {
        return Raised(AttributeError);
      }
      items := List(items.elems + [item]);
      lib.SetVariable("items", items);
      return Returned(Bool(true));
    }
    return Returned(Bool(false));
  }

  method GetItems(lib: DisplayLib) returns (r: Outcome<Value>)
    ensures Step(lib.State(), r) == GetItemsStep(lib.State())
  {
    r := Returned(lib.GetVariable("items"));
  }

  method ChangeTheme(lib: DisplayLib, newTheme: Value) returns (r: Outcome<Value>)
    modifies lib
    ensures Step(lib.State(), r) == ChangeThemeStep(old(lib.State()), newTheme)
  {
    if newTheme in [Str("light"), Str("dark")] {
      lib.SetVariable("theme", newTheme);
      return Returned(Bool(true));
    }
    return Returned(Bool(false));
  }

  /** Calls the handler `h` with `args` spread over its parameters. */
  method Apply(lib: DisplayLib, h: Handler, args: seq<Value>) returns (r: Outcome<Value>)
    modifies lib
    ensures Step(lib.State(), r) == Invoke(h, old(lib.State()), args)
  {
    if !Binds(h, args) {
      return Raised(TypeError);
    }
    match h
    case IncrementCounter =>
      if |args| == 0 {
        r := IncrementCounter(lib);
      } else {
        r := IncrementCounter(lib, args[0]);
      }
    case AddItem =>
      r := AddItem(lib, args[0]);
    case GetItems =>
      r := GetItems(lib);
    case ChangeTheme =>
      r := ChangeTheme(lib, args[0]);
  }

  /** `setup_demo`: the demo's constants, variables and method table. */
  method SetupDemo(lib: DisplayLib)
    modifies lib
    ensures lib.constants == old(lib.constants)["APP_NAME" := Str("DisplayLib Demo")]
      ["VERSION" := Str("1.0.0")]["MAX_ITEMS" := Int(10)]
    ensures lib.variables == old(lib.variables)["counter" := Int(0)]["userName" := Str("Guest")]
      ["items" := List([Str("Item 1"), Str("Item 2")])]["theme" := Str("light")]
    ensures lib.methods == old(lib.methods)["incrementCounter" := Handler.IncrementCounter]
      ["addItem" := Handler.AddItem]["getItems" := Handler.GetItems]["changeTheme" := Handler.ChangeTheme]
    ensures ThemeValid(lib.State()) && ItemsWithinMax(lib.State())
  {
    lib.DefineConstant("APP_NAME", Str("DisplayLib Demo"));
    lib.DefineConstant("VERSION", Str("1.0.0"));
    lib.DefineConstant("MAX_ITEMS", Int(10));
    lib.DefineVariable("counter", Int(0));
    lib.DefineVariable("userName", Str("Guest"));
    lib.DefineVariable("items", List([Str("Item 1"), Str("Item 2")]));
    lib.DefineVariable("theme", Str("light"));
    lib.DefineMethod("incrementCounter", Handler.IncrementCounter);
    lib.DefineMethod("addItem", Handler.AddItem);
    lib.DefineMethod("getItems", Handler.GetItems);
    lib.DefineMethod("changeTheme", Handler.ChangeTheme);
  }

  /** `add_item` called once per element of `xs`, in order: the tables at
      the end and the outcome of each call. */
  function AddItems(s: Store, xs: seq<Value>): (r: (Store, seq<Outcome<Value>>))
    ensures |r.1| == |xs|
    ensures r.0.constants == s.constants && r.0.methods == s.methods
    decreases |xs|
  {
    if xs == [] then (s, [])
    else
      var step := AddItemStep(s, xs[0]);
      var rest := AddItems(step.store, xs[1..]);
      (rest.0, [step.outcome] + rest.1)
  }

  /** One `add_item` call against a known list and limit. */
  lemma AddItemWithLimit(s: Store, item: Value, max: int, items: seq<Value>)
    requires "MAX_ITEMS" in s.constants && s.constants["MAX_ITEMS"] == Int(max)
    requires Get(s.variables, "items") == List(items)
    ensures var step := AddItemStep(s, item);
      && step.outcome == Returned(Bool(|items| < max))
      && step.store.constants == s.constants
      && Get(step.store.variables, "items") == List(if |items| < max then items + [item] else items)
  {
  }

  /** How many of `count` further items fit in a list of `size` items
      under a limit of `max`. */
  function Fitting(size: nat, count: nat, max: int): (r: nat)
    ensures r <= count
    ensures r == 0 || size + r <= max
    ensures r < count ==> size + r >= max
  {
    if max <= size then 0 else if count <= max - size then count else max - size
  }

  /** Repeated `add_item` answers True exactly while there is room: call
      `i` returns True when the list held fewer than `MAX_ITEMS` items
      before the run plus the `i` calls before it. */
  lemma {:induction false} AddItemsAnswers(s: Store, xs: seq<Value>, max: int, items: seq<Value>)
    requires "MAX_ITEMS" in s.constants && s.constants["MAX_ITEMS"] == Int(max)
    requires Get(s.variables, "items") == List(items)
    ensures forall i :: 0 <= i < |xs| ==> AddItems(s, xs).1[i] == Returned(Bool(|items| + i < max))
    decreases |xs|
  {
    if xs != [] {
      var step := AddItemStep(s, xs[0]);
      AddItemWithLimit(s, xs[0], max, items);
      AddItemsAnswers(step.store, xs[1..], max, if |items| < max then items + [xs[0]] else items);
      var rest := AddItems(step.store, xs[1..]);
      assert AddItems(s, xs).1 == [step.outcome] + rest.1;
      forall i | 0 <= i < |xs| ensures AddItems(s, xs).1[i] == Returned(Bool(|items| + i < max)) {
        if i > 0 {
          assert AddItems(s, xs).1[i] == rest.1[i - 1];
        }
      }
    }
  }

  lemma AppendPrefix(items: seq<Value>, xs: seq<Value>, n: nat)
    requires 0 < n <= |xs|
    ensures items + [xs[0]] + xs[1..][..n - 1] == items + xs[..n]
  {
    assert xs[..n] == [xs[0]] + xs[1..][..n - 1];
  }

  /** Repeated `add_item` fills the list up to `MAX_ITEMS` and no further:
      the items that fit are appended in order and the rest are dropped. */
  lemma {:induction false} AddItemsFillToMax(s: Store, xs: seq<Value>, max: int, items: seq<Value>)
    requires "MAX_ITEMS" in s.constants && s.constants["MAX_ITEMS"] == Int(max)
    requires Get(s.variables, "items") == List(items)
    ensures Get(AddItems(s, xs).0.variables, "items") == List(items + xs[..Fitting(|items|, |xs|, max)])
    decreases |xs|
  {
    if xs != [] {
      var step := AddItemStep(s, xs[0]);
      AddItemWithLimit(s, xs[0], max, items);
      var items' := if |items| < max then items + [xs[0]] else items;
      AddItemsFillToMax(step.store, xs[1..], max, items');
      assert AddItems(s, xs).0 == AddItems(step.store, xs[1..]).0;
      if |items| < max {
        AppendPrefix(items, xs, Fitting(|items|, |xs|, max));
      }
    }
  }

  /** The worked example: from two items and `MAX_ITEMS` = 10, ten calls
      return True eight times, then False twice, and leave ten items. */
  lemma TenAddsFromTwo(s: Store, xs: seq<Value>)
    requires "MAX_ITEMS" in s.constants && s.constants["MAX_ITEMS"] == Int(10)
    requires Get(s.variables, "items").List? && |Get(s.variables, "items").elems| == 2
    requires |xs| == 10
    ensures AddItems(s, xs).1 == seq(8, _ => Returned(Bool(true))) + seq(2, _ => Returned(Bool(false)))
    ensures Get(AddItems(s, xs).0.variables, "items").List?
    ensures |Get(AddItems(s, xs).0.variables, "items").elems| == 10
  {
    AddItemsAnswers(s, xs, 10, Get(s.variables, "items").elems);
    AddItemsFillToMax(s, xs, 10, Get(s.variables, "items").elems);
    assert AddItems(s, xs).1 == seq(8, _ => Returned(Bool(true))) + seq(2, _ => Returned(Bool(false)));
  }
}
