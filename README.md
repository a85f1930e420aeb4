# UnitTestingApp in Dafny

A Dafny model of the three self-contained components of UnitTestingApp, a
small assertion harness for Google Apps Script projects that also run
locally under Node:

- **The harness** (`UnitTestingApp.js`, module `TestingApp`, file
  `testing_app.dfy`). It is a singleton with two private flags. `enabled`
  starts false. `runningInGas` starts false and records which half of a
  dual-mode script is running. A fixed ambient flag `isInGas` says whether
  the process really runs in Apps Script. `assert`, `catchErr` and
  `is2dArray` do something only when the harness is enabled and the declared
  mode equals the ambient one. Each then writes exactly one console line.
  `assert` and `is2dArray` evaluate their value or zero-argument function
  and turn an exception from it into a `FAILED` line. `catchErr` passes
  exactly when its callback throws a value whose string form matches the
  pattern. `printHeader` checks the mode only.
- **The mock-data registry** (`MockData.js`, module `MockRegistry`, file
  `mock_registry.dfy`). It is a singleton plain object `{}` with `addData`,
  `getData` and `deleteData`. Each operation throws a specific `Error`.
  Existence is JavaScript truthiness of `registry[key]`.
- **The HTML table serialiser** (`Example/ArrayToHtml.js`, module
  `HtmlTable`, file `html_table.dfy`). It is a `reduce` over the rows of a
  2-D array. Each row is built by a `forEach` loop with `<th>` cells in row 0
  and `<td>` cells elsewhere.

Module `JsValue` (file `js_value.dfy`) gives the JavaScript value semantics
these three rely on: truthiness, `${x}` string conversion (numbers,
arrays, `Error.prototype.toString`), `Array.isArray`, and the outcome of a
call (return or throw).

How the model is organised:

- Each operation of the harness has a pure function (`AssertEffect`,
  `CatchErrEffect`, `Is2dArrayEffect`, `HeaderEffect`). It gives the console
  lines the operation writes and how many times it calls the caller's
  function. The methods of class `UnitTestingApp` run the source's control
  flow and are proved to write exactly those lines.
- The console is a `Console` object whose `lines` grow by one per
  `console.log`.
- A function argument is represented by what calling it does
  (`Completion`). A ghost counter `thunkCalls` records every call the
  harness makes, so "the function is never invoked" is a checked statement.
- The static `instance` slot of each singleton lives in a "class object"
  (`UnitTestingAppClass`, `MockDataClass`). Its `New` method plays the role
  of `new UnitTestingApp()` and `new MockData()`.
- `new RegExp(pattern).test(text)` is a function parameter `test` of
  `catchErr`.
- The ambient flag `typeof ScriptApp !== 'undefined'` is a constant given
  when the class object is created.

Behaviour of the code worth knowing, which the model keeps:

- `runInGas(b)` stores any value, and the default `true` applies when `b`
  is `undefined`. The gate compares with `!==`, so storing a non-boolean
  switches every operation off until `runInGas` stores a boolean again.
- `catchErr` with a callback that does not throw always fails, whatever the
  pattern.
- `is2dArray([])` fails, because `[][0]` is `undefined`.
- The registry is a plain `{}`. Every key it inherits from
  `Object.prototype` (`toString`, `constructor`, `__proto__`, ...) reads as
  a truthy value: a function (`Object` for `constructor`), or
  `Object.prototype` for `__proto__`. So `addData('constructor', v)` throws
  "already exists" on an empty registry. `deleteData('toString')` succeeds without removing
  anything, and a later `getData('toString')` still returns the function.
  `DeleteThenGet` states both cases.
- `addData` checks existence before it checks the key's type. A non-string
  key whose string form is already taken therefore throws "already exists",
  not "must be of type string".

What `UnitTestingApp.js` does not have, and the model therefore does not have either:

- The harness keeps no pass/fail counters and no verbosity level. It defines
  no `assertEquals`, `printSubHeader` or `printSummary`, and no expected
  error type for `catchErr`. Custom tests are added only through `addNewTest`,
  which installs them on the prototype and is left out below.
- `printHeader` checks the mode only, not `enabled`, and always prints a
  border of 21 asterisks whatever the text's length.

## Model

| member | source | states |
|---|---|---|
| `TestingApp.PassedLine` | UnitTestingApp.js:66 | the pass line starts with `✔ PASSED: `, so it is never taken for a failure line |
| `TestingApp.FailedLine` | UnitTestingApp.js:67 | the failure line starts with `❌ FAILED: `, so it is never taken for a pass line |
| `TestingApp.ErrorLine` | UnitTestingApp.js:69 | the line for a throwing condition is a failure line, never a pass line |
| `TestingApp.AssertEffect` | UnitTestingApp.js:61-71 | when gated off: no line and no call. When active: exactly one line and one call iff the condition is a function. The line is exactly `PASSED: message` iff evaluation returns a truthy value, exactly `FAILED: message` when it returns a falsy one, and a failure line in every case but the first. A throw yields `FAILED: msg (err)` and is not propagated |
| `TestingApp.CatchErrEffect` | UnitTestingApp.js:80-93 | when gated off: nothing. When active: the callback is called once and one line is written. It is exactly `PASSED: message` iff the callback threw and the pattern matches the thrown value's string form, and exactly `FAILED: message` otherwise, including for a callback that returns |
| `TestingApp.Is2dArrayEffect` | UnitTestingApp.js:100-109 | when gated off: nothing. When active: one line, a pass iff the value (after calling it when it is a function) is an array whose element 0 is an array, and a failure otherwise. A returned 2-D value yields exactly `PASSED: message`, any other returned value exactly `FAILED: message`; a throw yields `FAILED: message: err` |
| `TestingApp.Is2dArrayExamples` | UnitTestingApp.js:105 | `is2dArray([])` and `is2dArray([1,2,3])` fail; `is2dArray([[1],[2]])` passes |
| `TestingApp.HeaderEffect` | UnitTestingApp.js:111-116 | depends on the mode only. When the modes match: exactly three lines, a 21-asterisk border, `* ` + text and the border again. Otherwise nothing |
| `TestingApp.UnitTestingApp.constructor` | UnitTestingApp.js:17-25 | a first construction starts disabled, with `runningInGas` false |
| `TestingApp.UnitTestingApp.Enable` | UnitTestingApp.js:27-29 | sets `enabled` and changes nothing else |
| `TestingApp.UnitTestingApp.Disable` | UnitTestingApp.js:31-33 | clears `enabled` and changes nothing else |
| `TestingApp.UnitTestingApp.RunInGas` | UnitTestingApp.js:47-49 | stores its argument as `runningInGas` (`true` when undefined) and changes nothing else |
| `TestingApp.UnitTestingApp.Assert` | UnitTestingApp.js:61-71 | appends exactly `AssertEffect`'s lines to the console and makes exactly its calls; the flags are untouched |
| `TestingApp.UnitTestingApp.CatchErr` | UnitTestingApp.js:80-93 | appends exactly `CatchErrEffect`'s lines, through `assert` in the `finally` block |
| `TestingApp.UnitTestingApp.Is2dArray` | UnitTestingApp.js:100-109 | appends exactly `Is2dArrayEffect`'s lines, through `assert` on both paths |
| `TestingApp.UnitTestingApp.PrintHeader` | UnitTestingApp.js:111-116 | appends exactly `HeaderEffect`'s lines for the current mode, ignoring `enabled` |
| `TestingApp.UnitTestingAppClass.New` | UnitTestingApp.js:17-25 | a first construction yields a fresh, disabled instance and stores it. Later constructions return that same instance and reset nothing |
| `TestingApp.ConstructTwice` | UnitTestingApp.js:18 | flags set through the first construction are seen through the second, which is the same object |
| `TestingApp.RunBothHalves` | TestingTemplate.js:14-30 | a script declaring a local half and a hosted half prints exactly the header of the half matching the environment |
| `MockRegistry.Lookup` | MockData.js:23 | `registry[key]` is the own value, a truthy inherited member (`Object` for `constructor`, `Object.prototype` for `__proto__`), or `undefined` |
| `MockRegistry.Add` | MockData.js:22-27 | throws "Key k already exists" when the key holds a truthy value, checked before the type check. Otherwise throws "The key must be of type string" for a non-string key. Otherwise stores the value under the key, and every other key reads as before |
| `MockRegistry.Get` | MockData.js:34-37 | returns the value iff it is truthy, else throws "Data with key k doesn't exist" |
| `MockRegistry.Delete` | MockData.js:44-48 | succeeds iff the key holds a truthy value and then removes exactly that own key; else throws "doesn't exist" |
| `MockRegistry.AddThenGet` | MockData.js:22-37 | after a successful `addData(k, v)`, `getData(k)` returns `v` when `v` is truthy and throws "doesn't exist" when it is falsy |
| `MockRegistry.FalsyCanBeOverwritten` | MockData.js:23-25 | a key holding a falsy value, or never stored and naming no inherited member, is written without error |
| `MockRegistry.DeleteThenGet` | MockData.js:44-48 | after `deleteData(k)`, `getData(k)` throws, unless `k` names an inherited `Object.prototype` member, which still reads as present |
| `MockRegistry.InheritedAlwaysPresent` | MockData.js:23-36 | while no own key shadows an inherited member (the invariant `MockData` keeps), every inherited name reads as present: `getData` returns a truthy value and `addData` throws "already exists" |
| `MockRegistry.DeleteFrame` | MockData.js:46 | deleting one key leaves what every other key reads unchanged |
| `MockRegistry.RegisterReadDelete` | Example/Tests.js:59-75 | register, read back and delete `names`; then deleting an unknown key and reading `names` both throw "doesn't exist" |
| `MockRegistry.MockDataClass.New` | MockData.js:9-14 | a first construction yields a fresh empty registry. Later constructions return the same object, with its registry untouched |
| `MockRegistry.MockData.constructor` | MockData.js:9-14 | a first construction starts with an empty registry |
| `MockRegistry.MockData.AddData` | MockData.js:22-27 | returns `this` with the registry `Add` gives, or throws `Add`'s error and leaves the registry unchanged |
| `MockRegistry.MockData.GetData` | MockData.js:34-37 | returns or throws what `Get` says, and changes nothing |
| `MockRegistry.MockData.DeleteData` | MockData.js:44-48 | returns `this` with the registry `Delete` gives, or throws `Delete`'s error and leaves the registry unchanged |
| `HtmlTable.Reduced` | Example/ArrayToHtml.js:7-12 | every accumulator of the reduce starts with the opening `<table ...>` tag |
| `HtmlTable.Code` | Example/ArrayToHtml.js:7-13 | the output starts with `<table border="1" cellspacing="1" cellpadding="1">` and ends with `</table>` |
| `HtmlTable.CellsAreWrapped` | Example/ArrayToHtml.js:10 | a row's cells appear in order, one element per cell: `th` in row 0, `td` in every other row, with the text inserted unescaped |
| `HtmlTable.RowIsElement` | Example/ArrayToHtml.js:8-11 | a row renders as one `tr` element around its cells; an empty row as `<tr></tr>` |
| `HtmlTable.CodeStructure` | Example/ArrayToHtml.js:7-13 | the output is the opening tag, one `tr` element per input row in input order, then `</table>`. An empty array gives the opening tag followed directly by `</table>` |
| `HtmlTable.CodeLooksLikeTable` | Example/ArrayToHtml.js:7-13 | when no cell's text has a line break, the output matches `/^<table.*<\/table>$/i`, as Example/Tests.js asserts |
| `HtmlTable.RowPrefixStep` | Example/ArrayToHtml.js:10 | one pass of the `forEach` body extends `_tableRow` by exactly the next cell's element |
| `HtmlTable.RenderRow` | Example/ArrayToHtml.js:8-11 | the `forEach` loop that appends to `_tableRow` produces exactly the row's `tr` string |
| `HtmlTable.ArrayToHtml.constructor` | Example/ArrayToHtml.js:6-15 | `code` is the reduce's result. It equals the opening tag, one `tr` element per row and the closing tag |

## Left out

- `clearConsole` (UnitTestingApp.js:51-53) clears the terminal. It is output-device plumbing outside the line log.
- The `typeof ScriptApp` test behind `isInGas` (UnitTestingApp.js:39-41) is environment detection. It is a constant given to the class object.
- `addNewTest` (UnitTestingApp.js:123-125) installs a callback on the class prototype. That is dynamic dispatch with nothing to state beyond "the name is now callable".
- `isEnabled`, `isInGas` and `runningInGas` are plain getters. They are modelled as contract-free functions.
- Regular expressions are the parameter `test` of `catchErr`. An invalid pattern makes `new RegExp` throw inside the `catch` block, and `assert` then records a failure before the error escapes. That path is not modelled.
- `catchErr` takes its callback as a function outcome. Calling a non-function throws a TypeError whose text depends on the engine, so a non-function callback is not modelled.
- A function handed to the harness may itself call the harness or write to the console. Its side effects are not modelled; only the fact that it was called is counted.
- A function passed where `assert` or `is2dArray` accepts a plain value is always a `Thunk`: `Plain` never holds a function, although `Obj` could stand for one (as `Lookup` returns for inherited members). Handing such a value to the harness as `Plain` is not modelled.
- Numbers are the safe integers and NaN. Fractions, -0 and the infinities are floating point and are left out.
- Objects other than arrays and errors are represented by the string their `toString` yields. A `toString` that throws is not modelled.
- Symbols as registry keys are left out. Assigning to the `__proto__` key cannot happen, because the existence check always throws first.
- In `ArrayToHtml`, a row that is not an array (a TypeError from `forEach`) and the holes of sparse arrays (skipped by `reduce` and `forEach`) are not modelled: rows are sequences of values.
- The consumer scripts Example/Tests.js, Example/TestForVersion_0.1.1.js and TestingTemplate.js, and the calendar wrapper Example/Events.js, are not part of this model. A few of their steps appear only as client examples (`RunBothHalves`, `RegisterReadDelete`).
