/** Dispatch of calls from the page (`DisplayWindow.handle_js_call`,
    displaylib.py): a registered name is called with the arguments spread
    positionally, an unknown name is ignored, an exception is caught, and
    the return value is dropped.  Nothing is sent back to the page. */
module Window {
  import opened Values
  import opened DisplayStore
  import opened Handlers

  /** The tables after `handle_js_call(funcName, args)`. */
  function Dispatch(s: Store, funcName: string, args: seq<Value>): (r: Store)
    ensures funcName !in s.methods ==> r == s
    ensures funcName in s.methods ==> r == Invoke(s.methods[funcName], s, args).store
    ensures r.constants == s.constants && r.methods == s.methods
    ensures funcName in s.methods ==>
      r.variables - {Touches(s.methods[funcName])} == s.variables - {Touches(s.methods[funcName])}
    ensures funcName in s.methods && Invoke(s.methods[funcName], s, args).outcome.Raised? ==> r == s
  {
    if funcName in s.methods then Invoke(s.methods[funcName], s, args).store else s
  }

  /** The window, reduced to the store it dispatches into. */
  class DisplayWindow {
    const lib: DisplayLib

    constructor (lib: DisplayLib)
      ensures this.lib == lib
    {
      this.lib := lib;
    }

    /** Runs the registered handler, if any; its result or exception is
        only logged. */
    method HandleJsCall(funcName: string, args: seq<Value>)
      modifies lib
      ensures lib.State() == Dispatch(old(lib.State()), funcName, args)
    {
      if funcName in lib.methods {
        var result := Apply(lib, lib.methods[funcName], args);
      }
    }
  }

  /** Two variable tables that agree outside the key `k` read alike at
      every other key. */
  lemma GetOutside(m1: map<string, Value>, m2: map<string, Value>, k: string, x: string)
    requires m1 - {k} == m2 - {k}
    requires x != k
    ensures Get(m1, x) == Get(m2, x)
  {
    assert x in m1 <==> x in m1 - {k};
    assert x in m2 <==> x in m2 - {k};
    if x in m1 {
      assert m1[x] == (m1 - {k})[x];
    }
    if x in m2 {
      assert m2[x] == (m2 - {k})[x];
    }
  }

  /** No call dispatched by `handle_js_call` makes the theme invalid: only `change_theme`
      writes it, and it writes only "light" or "dark". */
  lemma DispatchKeepsThemeValid(s: Store, funcName: string, args: seq<Value>)
    requires ThemeValid(s)
    ensures ThemeValid(Dispatch(s, funcName, args))
  {
    if funcName in s.methods {
      var h := s.methods[funcName];
      var r := Dispatch(s, funcName, args);
      if Touches(h) != "theme" {
        GetOutside(r.variables, s.variables, Touches(h), "theme");
      }
    }
  }

  /** No call dispatched by `handle_js_call` makes the item list outgrow `MAX_ITEMS`: only
      `add_item` writes it, and only while there is room. */
  lemma DispatchKeepsItemsWithinMax(s: Store, funcName: string, args: seq<Value>)
    requires ItemsWithinMax(s)
    ensures ItemsWithinMax(Dispatch(s, funcName, args))
  {
    if funcName in s.methods {
      var h := s.methods[funcName];
      var r := Dispatch(s, funcName, args);
      if Touches(h) != "items" {
        GetOutside(r.variables, s.variables, Touches(h), "items");
      }
    }
  }

  /** The host handling a sequence of calls, one after another. */
  function DispatchAll(s: Store, calls: seq<(string, seq<Value>)>): (r: Store)
    ensures r.constants == s.constants && r.methods == s.methods
    decreases |calls|
  {
    if calls == [] then s
    else DispatchAll(Dispatch(s, calls[0].0, calls[0].1), calls[1..])
  }

  /** Both invariants hold after any sequence of calls dispatched by
      `handle_js_call` (writes through the bridge's `set_variable` bypass
      them; see `Bridge.SetVariableBypassesChecks`). */
  lemma {:induction false} DispatchAllKeepsInvariants(s: Store, calls: seq<(string, seq<Value>)>)
    requires ThemeValid(s) && ItemsWithinMax(s)
    ensures ThemeValid(DispatchAll(s, calls)) && ItemsWithinMax(DispatchAll(s, calls))
    decreases |calls|
  {
    if calls != [] {
      DispatchKeepsThemeValid(s, calls[0].0, calls[0].1);
      DispatchKeepsItemsWithinMax(s, calls[0].0, calls[0].1);
      DispatchAllKeepsInvariants(Dispatch(s, calls[0].0, calls[0].1), calls[1..]);
    }
  }

  /** The calls `addItem(x)` from the page, one per item, in order. */
  function AddItemCalls(xs: seq<Value>): (r: seq<(string, seq<Value>)>)
    ensures |r| == |xs|
    ensures forall i :: 0 <= i < |xs| ==> r[i] == ("addItem", [xs[i]])
  {
    seq(|xs|, i requires 0 <= i < |xs| => ("addItem", [xs[i]]))
  }

  /** Dispatching `addItem(x)` for each item, with `addItem` registered as
      `add_item`, does what calling `add_item` for each item does. */
  lemma {:induction false} DispatchAddItems(s: Store, xs: seq<Value>)
    requires "addItem" in s.methods && s.methods["addItem"] == Handler.AddItem
    ensures DispatchAll(s, AddItemCalls(xs)) == AddItems(s, xs).0
    decreases |xs|
  {
    if xs != [] {
      var calls := AddItemCalls(xs);
      var s' := Dispatch(s, "addItem", [xs[0]]);
      assert s' == AddItemStep(s, xs[0]).store;
      assert calls[1..] == AddItemCalls(xs[1..]);
      DispatchAddItems(s', xs[1..]);
    }
  }

  /** The worked example through the window: from two items and
      `MAX_ITEMS` = 10, ten `addItem` calls from the page leave ten items,
      the two old ones followed by the first eight new ones. */
  lemma TenDispatchedAddsFromTwo(s: Store, xs: seq<Value>)
    requires "addItem" in s.methods && s.methods["addItem"] == Handler.AddItem
    requires "MAX_ITEMS" in s.constants && s.constants["MAX_ITEMS"] == Int(10)
    requires Get(s.variables, "items").List? && |Get(s.variables, "items").elems| == 2
    requires |xs| == 10
    ensures Get(DispatchAll(s, AddItemCalls(xs)).variables, "items") ==
      List(Get(s.variables, "items").elems + xs[..8])
  {
    DispatchAddItems(s, xs);
    AddItemsFillToMax(s, xs, 10, Get(s.variables, "items").elems);
  }

  /** `changeTheme("dark")` from the page, with `changeTheme` registered as
      `change_theme`, sets the theme to "dark" and nothing else. */
  lemma DispatchChangeThemeDark(s: Store)
    requires "changeTheme" in s.methods && s.methods["changeTheme"] == Handler.ChangeTheme
    ensures Dispatch(s, "changeTheme", [Str("dark")]) == WithVariable(s, "theme", Str("dark"))
  {
  }

  /** `incrementCounter()` from the page, with `incrementCounter`
      registered as `increment_counter`, adds the default amount 1. */
  lemma DispatchIncrementCounterDefault(s: Store, n: int)
    requires "incrementCounter" in s.methods && s.methods["incrementCounter"] == Handler.IncrementCounter
    requires Get(s.variables, "counter") == Int(n)
    ensures Get(Dispatch(s, "incrementCounter", []).variables, "counter") == Int(n + 1)
  {
  }

  /** `incrementCounter()` from the page on a counter that is `None` (what
      `define_variable("counter")` stores by default): `None + 1` raises
      `TypeError`, which `handle_js_call` swallows, and nothing changes. */
  lemma DispatchIncrementCounterOnNone(s: Store)
    requires "incrementCounter" in s.methods && s.methods["incrementCounter"] == Handler.IncrementCounter
    requires Get(s.variables, "counter") == Null
    ensures Dispatch(s, "incrementCounter", []) == s
  {
  }
}
