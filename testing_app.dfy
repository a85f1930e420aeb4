/**
 * The assertion harness of UnitTestingApp.js.
 *
 * The harness is a singleton with two private flags, `enabled` and
 * `runningInGas`, and an ambient flag `isInGas` that says whether the
 * process runs inside Google Apps Script. Every assertion first checks a
 * gate (enabled, and declared mode equal to ambient mode) and then writes
 * exactly one line to the console. `assert` and `is2dArray` evaluate their
 * value or zero-argument function and turn an exception from it into a
 * FAILED line; `catchErr` passes exactly when its callback throws a value
 * whose string form matches the pattern.
 *
 * The pure functions below (AssertEffect, CatchErrEffect, Is2dArrayEffect,
 * HeaderEffect) say what each operation does to the outside world; the
 * methods of class UnitTestingApp do it step by step and are proved to agree.
 */
module TestingApp {
  import opened JsValue

  /**
   * A parameter that JavaScript accepts either as a plain value or as a
   * zero-argument function (`typeof x === "function"`); a function is
   * represented by what calling it does. `Plain` never holds a function:
   * a function argument is always a `Thunk`.
   */
  datatype Arg = Plain(v: Value) | Thunk(call: Completion<Value>)

  /** What one operation does outside the harness: the console lines it writes and how often it calls the caller's function. */
  datatype Effect = Effect(lines: seq<string>, calls: nat)

  const Silent: Effect := Effect([], 0)

  const PassedPrefix: string := "\U{2714} PASSED: "
  const FailedPrefix: string := "\U{274C} FAILED: "
  const Border: string := "*********************"

  predicate IsPassed(line: string) {
    |line| >= |PassedPrefix| && line[..|PassedPrefix|] == PassedPrefix
  }

  predicate IsFailed(line: string) {
    |line| >= |FailedPrefix| && line[..|FailedPrefix|] == FailedPrefix
  }

  /** `✔ PASSED: ${message}` */
  function PassedLine(message: Value): (line: string)
    ensures IsPassed(line) && !IsFailed(line)
  {
    var line := PassedPrefix + ToString(message);
    assert line[..|PassedPrefix|] == PassedPrefix;
    assert line[0] != FailedPrefix[0];
    line
  }

  /** `❌ FAILED: ${message}` */
  function FailedLine(message: Value): (line: string)
    ensures IsFailed(line) && !IsPassed(line)
  {
    var line := FailedPrefix + ToString(message);
    assert line[..|FailedPrefix|] == FailedPrefix;
    assert line[0] != PassedPrefix[0];
    line
  }

  /** `❌ FAILED: ${message} (${err})` */
  function ErrorLine(message: Value, err: Value): (line: string)
    ensures IsFailed(line) && !IsPassed(line)
  {
    var line := FailedPrefix + ToString(message) + " (" + ToString(err) + ")";
    assert line[..|FailedPrefix|] == FailedPrefix;
    assert line[0] != PassedPrefix[0];
    line
  }

  /** The value an argument stands for: the plain value, or what calling the function yields. */
  function Evaluate(a: Arg): Completion<Value> {
    match a
    case Plain(v) => Normal(v)
    case Thunk(call) => call
  }

  /** How many times evaluating the argument calls a function of the caller. */
  function CallsOf(a: Arg): nat {
    if a.Thunk? then 1 else 0
  }

  /** A condition holds when evaluating it returns a truthy value without throwing. */
  predicate Holds(c: Completion<Value>) {
    c.Normal? && Truthy(c.value)
  }

  /** The shallow check of is2dArray: an array whose element 0 is an array. */
  predicate Is2d(v: Value) {
    IsArray(v) && IsArray(FirstItem(v))
  }

  /** assert(condition, message) when the gate is `active`. */
  function AssertEffect(active: bool, condition: Arg, message: Value): (e: Effect)
    ensures !active ==> e == Silent
    ensures active ==> |e.lines| == 1 && e.calls == CallsOf(condition)
    ensures active ==> (IsPassed(e.lines[0]) <==> Holds(Evaluate(condition)))
    ensures active ==> (IsFailed(e.lines[0]) <==> !Holds(Evaluate(condition)))
    ensures active && Holds(Evaluate(condition)) ==> e.lines == [PassedLine(message)]
    ensures active && Evaluate(condition).Normal? && !Truthy(Evaluate(condition).value) ==>
              e.lines == [FailedLine(message)]
    ensures active && Evaluate(condition).Abrupt? ==>
              e.lines == [ErrorLine(message, Evaluate(condition).thrown)]
  {
    if !active then Silent
    else
      var line :=
        match Evaluate(condition)
        case Normal(v) => if Truthy(v) then PassedLine(message) else FailedLine(message)
        case Abrupt(err) => ErrorLine(message, err);
      Effect([line], CallsOf(condition))
  }

  /** Whether catchErr records a pass: the callback threw, and the pattern matches the thrown value's string form. */
  predicate Caught(callback: Completion<Value>, errorMessage: string, test: (string, string) -> bool) {
    callback.Abrupt? && test(errorMessage, ToString(callback.thrown))
  }

  /**
   * catchErr(callback, errorMessage, message) when the gate is `active`;
   * `test(pattern, text)` is `new RegExp(pattern).test(text)`.
   */
  function CatchErrEffect(active: bool, callback: Completion<Value>, errorMessage: string,
                          message: Value, test: (string, string) -> bool): (e: Effect)
    ensures !active ==> e == Silent
    ensures active ==> |e.lines| == 1 && e.calls == 1
    ensures active ==> (IsPassed(e.lines[0]) <==> Caught(callback, errorMessage, test))
    ensures active ==> (IsFailed(e.lines[0]) <==> !Caught(callback, errorMessage, test))
    ensures active && Caught(callback, errorMessage, test) ==> e.lines == [PassedLine(message)]
    ensures active && !Caught(callback, errorMessage, test) ==> e.lines == [FailedLine(message)]
    ensures active && callback.Normal? ==> e.lines == [FailedLine(message)]
  {
    if !active then Silent
    else
      var isCaught := Caught(callback, errorMessage, test);
      Effect(AssertEffect(true, Plain(Bool(isCaught)), message).lines, 1)
  }

  /** is2dArray(array, message) when the gate is `active`. */
  function Is2dArrayEffect(active: bool, input: Arg, message: Value): (e: Effect)
    ensures !active ==> e == Silent
    ensures active ==> |e.lines| == 1 && e.calls == CallsOf(input)
    ensures active ==>
              (IsPassed(e.lines[0]) <==> Evaluate(input).Normal? && Is2d(Evaluate(input).value))
    ensures active ==>
              (IsFailed(e.lines[0]) <==> !(Evaluate(input).Normal? && Is2d(Evaluate(input).value)))
    ensures active && Evaluate(input).Normal? && Is2d(Evaluate(input).value) ==>
              e.lines == [PassedLine(message)]
    ensures active && Evaluate(input).Normal? && !Is2d(Evaluate(input).value) ==>
              e.lines == [FailedLine(message)]
    ensures active && Evaluate(input).Abrupt? ==>
              e.lines == [FailedLine(Str(ToString(message) + ": " + ToString(Evaluate(input).thrown)))]
  {
    if !active then Silent
    else
      match Evaluate(input)
      case Normal(v) =>
        Effect(AssertEffect(true, Plain(Bool(Is2d(v))), message).lines, CallsOf(input))
      case Abrupt(err) =>
        var described := Str(ToString(message) + ": " + ToString(err));
        Effect(AssertEffect(true, Plain(Bool(false)), described).lines, CallsOf(input))
  }

  /** The shallow check: `[]` and `[1, 2, 3]` fail, `[[1], [2]]` passes. */
  lemma Is2dArrayExamples(message: Value)
    ensures IsFailed(Is2dArrayEffect(true, Plain(Arr([])), message).lines[0])
    ensures IsFailed(Is2dArrayEffect(true, Plain(Arr([Num(1), Num(2), Num(3)])), message).lines[0])
    ensures IsPassed(Is2dArrayEffect(true, Plain(Arr([Arr([Num(1)]), Arr([Num(2)])])), message).lines[0])
  {
  }

  /** printHeader(text) when the declared mode does (or does not) match the ambient one. */
  function HeaderEffect(modeMatches: bool, text: Value): (e: Effect)
    ensures !modeMatches ==> e == Silent
    ensures modeMatches ==> |e.lines| == 3 && e.calls == 0
    ensures modeMatches ==> e.lines[0] == e.lines[2] == Border && e.lines[1] == "* " + ToString(text)
    ensures |Border| == 21 && forall k :: 0 <= k < |Border| ==> Border[k] == '*'
  {
    if modeMatches then Effect([Border, "* " + ToString(text), Border], 0) else Silent
  }

  /** The output sink: console.log appends one line. */
  class Console {
    var lines: seq<string>

    constructor ()
      ensures lines == []
    {
      lines := [];
    }

    method Log(line: string)
      modifies this
      ensures lines == old(lines) + [line]
    {
      lines := lines + [line];
    }
  }

  class UnitTestingApp {
    var enabled: bool
    /** What runInGas last stored; any JavaScript value, `false` initially. */
    var runningInGas: Value
    /** `typeof ScriptApp !== 'undefined'`, fixed by the environment. */
    const isInGas: bool
    const console: Console
    /** How many times the harness has called a function handed to it. */
    ghost var thunkCalls: nat

    /** Only UnitTestingAppClass.New calls this, the first time the class is constructed. */
    constructor (isInGas: bool, console: Console)
      ensures !enabled && runningInGas == Bool(false)
      ensures this.isInGas == isInGas && this.console == console && thunkCalls == 0
    {
      enabled := false;
      runningInGas := Bool(false);
      this.isInGas := isInGas;
      this.console := console;
      thunkCalls := 0;
    }

    /** `this.isInGas === this.runningInGas` */
    predicate ModeMatches()
      reads this
    {
      Bool(isInGas) == runningInGas
    }

    /** The gate of assert, catchErr and is2dArray. */
    predicate Active()
      reads this
    {
      enabled && ModeMatches()
    }

    method Enable()
      modifies this`enabled
      ensures enabled
    {
      enabled := true;
    }

    method Disable()
      modifies this`enabled
      ensures !enabled
    {
      enabled := false;
    }

    function IsEnabled(): bool
      reads this
    {
      enabled
    }

    function IsInGas(): bool {
      isInGas
    }

    function RunningInGas(): Value
      reads this
    {
      runningInGas
    }

    /** runInGas(bool = true): an omitted or undefined argument stores `true`. */
    method RunInGas(flag: Value)
      modifies this`runningInGas
      ensures runningInGas == if flag == Undefined then Bool(true) else flag
    {
      runningInGas := if flag == Undefined then Bool(true) else flag;
    }

    /** Calls a function handed in by the caller. */
    method Call(f: Completion<Value>) returns (outcome: Completion<Value>)
      modifies this`thunkCalls
      ensures outcome == f && thunkCalls == old(thunkCalls) + 1
    {
      thunkCalls := thunkCalls + 1;
      outcome := f;
    }

    method Assert(condition: Arg, message: Value)
      modifies console, this`thunkCalls
      ensures console.lines == old(console.lines) + AssertEffect(Active(), condition, message).lines
      ensures thunkCalls == old(thunkCalls) + AssertEffect(Active(), condition, message).calls
    {
      if !enabled { return; }
      if Bool(isInGas) != runningInGas { return; }
      var outcome: Completion<Value>;
      match condition {
        case Plain(v) => outcome := Normal(v);
        case Thunk(call) => outcome := Call(call);
      }
      match outcome {
        case Normal(v) =>
          if Truthy(v) {
            console.Log(PassedLine(message));
          } else {
            console.Log(FailedLine(message));
          }
        case Abrupt(err) =>
          console.Log(ErrorLine(message, err));
      }
    }

    method CatchErr(callback: Completion<Value>, errorMessage: string, message: Value,
                    test: (string, string) -> bool)
      modifies console, this`thunkCalls
      ensures console.lines ==
                old(console.lines) + CatchErrEffect(Active(), callback, errorMessage, message, test).lines
      ensures thunkCalls ==
                old(thunkCalls) + CatchErrEffect(Active(), callback, errorMessage, message, test).calls
    {
      if !enabled { return; }
      if Bool(isInGas) != runningInGas { return; }
      var isCaught := false;
      var outcome := Call(callback);
      if outcome.Abrupt? {
        isCaught := test(errorMessage, ToString(outcome.thrown));
      }
      // the `finally` block
      Assert(Plain(Bool(isCaught)), message);
    }

    method Is2dArray(input: Arg, message: Value)
      modifies console, this`thunkCalls
      ensures console.lines == old(console.lines) + Is2dArrayEffect(Active(), input, message).lines
      ensures thunkCalls == old(thunkCalls) + Is2dArrayEffect(Active(), input, message).calls
    {
      if !enabled { return; }
      if Bool(isInGas) != runningInGas { return; }
      var outcome: Completion<Value>;
      match input {
        case Plain(v) => outcome := Normal(v);
        case Thunk(call) => outcome := Call(call);
      }
      match outcome {
        case Normal(v) =>
          Assert(Plain(Bool(IsArray(v) && IsArray(FirstItem(v)))), message);
        case Abrupt(err) =>
          Assert(Plain(Bool(false)), Str(ToString(message) + ": " + ToString(err)));
      }
    }

    method PrintHeader(text: Value)
      modifies console
      ensures console.lines == old(console.lines) + HeaderEffect(ModeMatches(), text).lines
    {
      if Bool(isInGas) != runningInGas { return; }
      console.Log(Border);
      console.Log("* " + ToString(text));
      console.Log(Border);
    }
  }

  /**
   * The class object UnitTestingApp, holding the static `instance` slot:
   * `new UnitTestingApp()` returns the instance stored there when there is one.
   */
  class UnitTestingAppClass {
    const isInGas: bool
    const console: Console
    var instance: UnitTestingApp?

    ghost predicate Valid()
      reads this
    {
      instance != null ==> instance.isInGas == isInGas && instance.console == console
    }

    constructor (isInGas: bool, console: Console)
      ensures Valid() && instance == null
      ensures this.isInGas == isInGas && this.console == console
    {
      this.isInGas := isInGas;
      this.console := console;
      instance := null;
    }

    /** new UnitTestingApp() */
    method New() returns (app: UnitTestingApp)
      requires Valid()
      modifies this`instance
      ensures Valid() && instance == app
      ensures old(instance) != null ==> app == old(instance)
      ensures old(instance) == null ==>
                fresh(app) && !app.enabled && app.runningInGas == Bool(false) && app.thunkCalls == 0
      ensures app.isInGas == isInGas && app.console == console
    {
      if instance != null {
        return instance;
      }
      app := new UnitTestingApp(isInGas, console);
      instance := app;
    }
  }

  /**
   * The pattern of a dual-mode test script: declare the local half, then the
   * hosted half. Exactly the half whose mode matches the environment prints
   * its header, whether or not the harness is enabled.
   */
  method RunBothHalves(cls: UnitTestingAppClass)
    requires cls.Valid()
    modifies cls, cls.instance, cls.console
    ensures cls.console.lines ==
              old(cls.console.lines) + HeaderEffect(true, Str(if cls.isInGas then "ONLINE TESTS" else "LOCAL TESTS")).lines
  {
    var test := cls.New();
    test.RunInGas(Bool(false));
    test.PrintHeader(Str("LOCAL TESTS"));
    test.RunInGas(Bool(true));
    test.PrintHeader(Str("ONLINE TESTS"));
  }

  /** A second construction returns the first object, with the flags set through it. */
  method ConstructTwice(cls: UnitTestingAppClass) returns (first: UnitTestingApp, second: UnitTestingApp)
    requires cls.Valid()
    modifies cls, cls.instance
    ensures first == second && second.enabled && second.runningInGas == Bool(true)
  {
    first := cls.New();
    first.Enable();
    first.RunInGas(Undefined);
    second := cls.New();
  }
}
