# DisplayLib bridge core, modelled in Dafny

DisplayLib (`displaylib.py`) shows HTML pages in an embedded browser and
lets the page and the Python host share state. The host keeps a store of
three string-keyed tables: constants, variables and methods. The page reaches
the store through one object, `pyBridge` (`JSBridge`). That object forwards
calls to `DisplayWindow.handle_js_call`, answers constant and variable lookups
as JSON text, and accepts lenient writes. `render_page` puts a style sheet,
the page-side stub `window.DisplayLib` and the caller's script into the page.
The demo registers five handlers against the store: `increment_counter`,
`show_message`, `add_item`, `get_items` and `change_theme`. The model runs
all of them except `show_message`, which only opens a dialog.

The project has one module per part:

- `Values` (values.dfy): the stored values and Python's `+`, `len` and `<` on them.
- `Json` (json.dfy): the wire format. It is an abstract codec, a pair of `dumps` and a partial `loads`. `Lawful` states the three JSON facts the bridge relies on: `None` encodes as `null`, decoding undoes encoding, and no encoding is empty.
- `DisplayStore` (store.dfy): the `DisplayLib` class, whose three tables are updated in place, and `Store`, a snapshot of those tables.
- `Handlers` (handlers.dfy): each demo handler twice. A function on a snapshot says what one call does. A method does it to the object in place.
- `Window` (window.dfy): `handle_js_call` and the invariants that the handled calls keep.
- `Bridge` (bridge.dfy): the `JSBridge` slots.
- `Guest` (guest.dfy): the page-side stub inside the injected bridge script.
- `Render` (render.dfy): where `render_page` puts its tags. It works on an abstract page made of top-level nodes, an optional `html` element and heads and bodies in the container.

The bridge protocol in the code is minimal, and the model keeps it so:

- There are no correlation IDs, no pending-request table and no result messages.
- `callPython` resolves with `null` as soon as the call is sent.
- `handle_js_call` drops what the handler returns.
- An unknown method name is ignored apart from a log line: nothing is raised or reported to the page.
- A handler's exception is caught on the host and never reaches the page.
- Defining a constant twice replaces the first value.

As a result, the page can never learn a handler's return value. The demo page's `then((success) => …)` branches get `null` every time, for example after `addItem` has appended its item. `Guest.CallPython` states this outcome.

## Model

| member | source | states |
|---|---|---|
| `Values.Add` | displaylib.py:339 | `current + amount`: numeric sum (bools count as 0/1), str and list concatenation, `TypeError` for every other pair |
| `Values.Len` | displaylib.py:352 | `len(items)` is defined exactly on str, list and dict, and is the number of characters, elements or keys; otherwise `TypeError` |
| `Values.LessThan` | displaylib.py:352 | `len(items) < MAX_ITEMS` compares only against a number; otherwise `TypeError` |
| `DisplayStore.Get` | displaylib.py:80 | `dict.get`: the stored value for a known name, `None` for an unknown one |
| `DisplayStore.WithVariable` | displaylib.py:82-84 | writing a variable stores the value under that name; constants, methods and every other variable are unchanged |
| `DisplayStore.SetThenGet` | displaylib.py:78-84 | reading a name after writing it gives the written value; other names read as before |
| `DisplayStore.DisplayLib.constructor` | displaylib.py:58-61 | a new store has three empty tables |
| `DisplayStore.DisplayLib.DefineConstant` | displaylib.py:66-68 | `constants[name]` becomes the value and silently replaces any earlier one; variables and methods are unchanged |
| `DisplayStore.DisplayLib.DefineVariable` | displaylib.py:70-72 | `variables[name]` becomes the initial value (`None` by default), replacing any earlier one; the other tables are unchanged |
| `DisplayStore.DisplayLib.DefineMethod` | displaylib.py:74-76 | `methods[name]` becomes the callable, replacing any earlier one; the other tables are unchanged |
| `DisplayStore.DisplayLib.GetVariable` | displaylib.py:78-80 | the variable's value, or `None` for a name never defined; never fails |
| `DisplayStore.DisplayLib.SetVariable` | displaylib.py:82-84 | only `variables[name]` changes, and it now reads back as the written value |
| `Handlers.IncrementCounterStep` | displaylib.py:336-342 | the outcome is exactly Python's `counter + amount` (`Values.Add`): a numeric sum, a str or list concatenation, or `TypeError`; a returned value is stored in `counter` and nothing else changes; when `+` raises (for example on an undefined or `None` counter) nothing changes |
| `Handlers.AddItemStep` | displaylib.py:349-358 | with a list and a numeric `MAX_ITEMS`, the call returns True exactly when `len(items) < MAX_ITEMS`; it appends the item exactly when it returns True and otherwise leaves the store unchanged; `len` of a non-container raises `TypeError`, a missing `MAX_ITEMS` `KeyError` and a non-numeric one `TypeError`, all before any write; a str or dict `items` raises `AttributeError` under the limit and returns False at or over it |
| `Handlers.GetItemsStep` | displaylib.py:360-362 | returns `items` and changes nothing |
| `Handlers.ChangeThemeStep` | displaylib.py:364-370 | returns True exactly for "light" or "dark" and then stores the theme; any other argument returns False and changes nothing |
| `Handlers.Invoke` | displaylib.py:250 | `f(*args)`: arguments that bind run the handler's step, with `increment_counter`'s `amount` defaulting to 1 when no argument is given; arguments that do not bind raise `TypeError`; no handler touches constants, methods or any variable but its own; a call that raises has changed nothing |
| `Handlers.IncrementCounter` | displaylib.py:336-342 | the in-place handler does to the store what `IncrementCounterStep` says and returns the same outcome |
| `Handlers.AddItem` | displaylib.py:349-358 | the in-place handler, whose `items.append` mutates the stored list, does what `AddItemStep` says |
| `Handlers.GetItems` | displaylib.py:360-362 | returns what `GetItemsStep` says |
| `Handlers.ChangeTheme` | displaylib.py:364-370 | the in-place handler does what `ChangeThemeStep` says |
| `Handlers.Apply` | displaylib.py:250 | calling a registered handler with arguments spread positionally does what `Invoke` says |
| `Handlers.SetupDemo` | displaylib.py:315-334 | the demo's constants, variables and method table, from which a valid theme and an item list within `MAX_ITEMS` hold |
| `Handlers.AddItems` | displaylib.py:349-358 | repeated `add_item` gives one outcome per call and keeps constants and methods |
| `Handlers.Fitting` | displaylib.py:352-353 | how many further items fit under `MAX_ITEMS`: never more than offered, never past the limit unless none fit, and fewer than offered only when the limit is reached |
| `Handlers.AddItemsAnswers` | displaylib.py:349-358 | call `i` of a run of `add_item` calls returns True exactly when the starting length plus `i` is below `MAX_ITEMS` |
| `Handlers.AddItemsFillToMax` | displaylib.py:349-358 | a run of `add_item` calls appends, in order, exactly the items that fit under `MAX_ITEMS` and drops the rest |
| `Handlers.TenAddsFromTwo` | displaylib.py:349-358 | from 2 items and `MAX_ITEMS` = 10, ten calls return True eight times and then False twice, leaving 10 items |
| `Window.Dispatch` | displaylib.py:246-255 | an unknown name leaves the store unchanged; a known one leaves the store exactly as its handler's `Invoke` step does; constants and methods never change; a handler that raises leaves the store unchanged; nothing is returned |
| `Window.DisplayWindow.constructor` | displaylib.py:199-202 | the window dispatches into the store it was given |
| `Window.DisplayWindow.HandleJsCall` | displaylib.py:246-255 | the in-place dispatch does what `Dispatch` says; the exception and the result are dropped |
| `Window.DispatchKeepsThemeValid` | displaylib.py:364-370 | no call dispatched by `handle_js_call` can make the theme anything but "light" or "dark" |
| `Window.DispatchKeepsItemsWithinMax` | displaylib.py:349-358 | no call dispatched by `handle_js_call` can make the item list longer than `MAX_ITEMS` |
| `Window.DispatchAll` | displaylib.py:246-255 | a sequence of handled calls never changes constants or methods |
| `Window.DispatchAllKeepsInvariants` | displaylib.py:246-255 | both invariants hold after any sequence of calls dispatched by `handle_js_call` (the bridge's `set_variable` bypasses them: `Bridge.SetVariableBypassesChecks`) |
| `Window.AddItemCalls` | displaylib.py:248-250 | one `("addItem", [x])` call per item, in order |
| `Window.DispatchAddItems` | displaylib.py:246-255 | dispatching `addItem(x)` for each item, with `addItem` registered as `add_item`, leaves the store as calling `add_item` for each item does |
| `Window.TenDispatchedAddsFromTwo` | displaylib.py:246-255 | from 2 items and `MAX_ITEMS` = 10, ten dispatched `addItem` calls leave exactly 10 items: the old two followed by the first eight new ones |
| `Window.DispatchChangeThemeDark` | displaylib.py:364-370 | dispatching `changeTheme("dark")` sets `theme` to "dark" and changes nothing else |
| `Window.DispatchIncrementCounterOnNone` | displaylib.py:246-255 | `incrementCounter()` on a `None` counter raises inside `handle_js_call`, which swallows it, and the store is unchanged |
| `Window.DispatchIncrementCounterDefault` | displaylib.py:336-342 | dispatching `incrementCounter()` with no argument adds the default amount 1 to an integer counter |
| `Bridge.Lookup` | displaylib.py:34-42 | a lookup answers JSON text that decodes to the stored value; an unknown name is answered with `null`; the answer is never empty |
| `Bridge.Lenient` | displaylib.py:44-50 | the value stored for a write is the decoded value, or the raw text as a string when the text is not JSON |
| `Bridge.LenientUndoesDumps` | displaylib.py:44-50 | writing the JSON text of a value stores that value |
| `Bridge.Serve` | displaylib.py:29-50 | what each slot does: lookups change nothing and answer text that decodes to the stored value; `set_variable` writes one variable; `call_python_function` dispatches; none changes constants or methods |
| `Bridge.PageCannotChangeConstantsOrMethods` | displaylib.py:29-50 | no sequence of requests from the page changes constants or methods |
| `Bridge.SetVariableBypassesChecks` | displaylib.py:44-50 | `set_variable` writes any variable directly, so the page can store a theme other than "light"/"dark" or an `items` that is not a list |
| `Bridge.WriteThenRead` | displaylib.py:39-50 | after `set_variable(n, s)`, `get_variable(n)` decodes to the value `s` decodes to, or to the string `s` when `s` is not JSON |
| `Bridge.JSBridge.constructor` | displaylib.py:229 | the bridge reaches the window's store and forwards calls to that window |
| `Bridge.JSBridge.CallPythonFunction` | displaylib.py:29-32 | the emitted call is dispatched by the window it is connected to; nothing is answered |
| `Bridge.JSBridge.GetConstant` | displaylib.py:34-37 | JSON text of the constant, `null` for an unknown name; read-only and never fails |
| `Bridge.JSBridge.GetVariable` | displaylib.py:39-42 | JSON text of the variable, `null` for an unknown name; read-only and never fails |
| `Bridge.JSBridge.SetVariable` | displaylib.py:44-50 | stores the decoded value or, when decoding fails, the raw text; only that variable changes and nothing is raised |
| `Guest.ParseAnswer` | displaylib.py:137 | `result ? JSON.parse(result) : null`: an empty answer reads as `null`; any other answer is decoded, which may fail |
| `Guest.LookupParses` | displaylib.py:134-147 | the page parses every lookup answer without error to the stored value, and an unknown name to `null` |
| `Guest.SetThenGetFromPage` | displaylib.py:141-154 | a value the page writes with `setVariable` is what its `getVariable` then returns |
| `Guest.RawTextReadsBack` | displaylib.py:44-50 | text that is not JSON (for example "not json"), written directly to `set_variable`, reads back in the page as that literal string |
| `Guest.GetConstant` | displaylib.py:134-140 | the stored constant, or `null` for an unknown name or when there is no bridge |
| `Guest.GetVariable` | displaylib.py:141-147 | the stored variable, or `null` for an unknown name or when there is no bridge |
| `Guest.SetVariable` | displaylib.py:148-154 | with a bridge, the value itself is stored and true returned; without one, false |
| `Guest.CallPython` | displaylib.py:122-133 | with a bridge, the call is dispatched and the promise resolves with `null`, whatever the handler did; without one, it is rejected with "Python bridge not available" |
| `Render.Find` | displaylib.py:103 | the index of the first node of a kind, and none exactly when no node has that kind |
| `Render.ChildrenUpdate` | displaylib.py:104 | replacing the first head (or body) by one of the same kind changes only that element's children |
| `Render.ChildrenPrepend` | displaylib.py:107-112 | after a node is inserted at the front, `soup.head`/`soup.body` is that node if it has the kind, and otherwise is unchanged |
| `Render.ChildrenAppend` | displaylib.py:186-191 | after a node is appended at the end, an existing head or body stays the one found, and the new node is found only when there was none |
| `Render.AppendChild` | displaylib.py:104 | appending to the existing head or body makes the node its last child; no element moves and nothing else changes |
| `Render.InsertFirst` | displaylib.py:107-112 | a new head goes to index 0 of the `html` element, or of the page without one; the other sections shift by one |
| `Render.AppendLast` | displaylib.py:186-191 | a new body goes to the end of the `html` element, or of the page without one; nothing else moves |
| `Render.PutInHead` | displaylib.py:169-177 | a node is appended to the head, or placed in a new head inserted at index 0 |
| `Render.PutInBody` | displaylib.py:180-191 | a node is appended to the body, or placed in a new body appended at the end |
| `Render.HeadPhase` | displaylib.py:100-177 | the style tag (for non-empty CSS) and then the bridge script end up as the last children of the head, which is created at index 0 if missing; the body's position shifts by one exactly when a head was created |
| `Render.BodyPhase` | displaylib.py:180-191 | the user script (for non-empty JS) ends up as the last child of the body, created at the end of the container if missing; the head is untouched |
| `Render.RenderPage` | displaylib.py:94-193 | the page always has a head afterwards, and its children gain the style tag (only for non-empty CSS) followed by the bridge script; a missing head is created at index 0; the body gains the user script exactly when the JS is non-empty, in a new body at the end when there was none; the frame around the container and the other nodes are unchanged; a well-formed page stays well-formed |

## Left out

- The PyQt window, tabs and web views (`init_ui`, `add_browser_tab` apart from creating the bridge, `display_url`, `display_html`, `setHtml`): GUI plumbing.
- The QWebChannel transport (signals, slots, `registerObject`, `connect`): a foreign framework. The model assumes that a call emitted by the bridge runs the connected window's `handle_js_call` at once, to completion. When that happens relative to the page's later code is not modelled.
- Guest.GetConstant, Guest.GetVariable: assume that `pyBridge.get_constant(name)` and `pyBridge.get_variable(name)` hand the page the slot's JSON text synchronously. QWebChannel's JavaScript proxies deliver a slot's return value asynchronously, to a callback, so in the running page `result` is not the host's answer.
- Guest.LookupParses, Guest.SetThenGetFromPage: rest on the same synchronous-answer assumption, so they describe the answer the page would parse, not what it receives.
- Bridge.Lookup, Bridge.JSBridge.GetConstant, Bridge.JSBridge.GetVariable: never fail only because the value space holds JSON-serialisable values alone. `define_constant` and `define_variable` accept any Python object, and `json.dumps` raises on one that is not JSON-serialisable; that failure is not modelled.
- JSON text: `json.dumps`/`json.loads` and `JSON.stringify`/`JSON.parse` are one abstract codec with three laws. Both sides are assumed to agree on JSON values. Floats are not part of the value space, so the `PI` constant and JavaScript's float-only numbers are not modelled.
- BeautifulSoup parsing, `str(soup)` serialisation, tinycss2's `parse_css` and the text inside tags: third-party libraries. Heads and bodies are looked for only in the container. `Render.WellFormed` describes the pages on which this is where BeautifulSoup finds them.
- `show_message` and its registration as `showMessage`: it opens a dialog and never touches the store.
- The `print` logging, the demo page's HTML, CSS and JS, its `setTimeout` initialisation and `initDisplayLib`: UI and timers.
- Aliasing of Python lists: values are immutable in the model. If the list under `items` were also stored under another name, `add_item`'s in-place `append` would change both; the model changes only `items`.
- Handlers other than the demo's: `Handler` is the closed set of the four demo callables the model runs (every registered one but `show_message`). Arbitrary Python callables are not modelled.
