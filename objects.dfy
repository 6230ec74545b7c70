/**
 * The runtime values and the object model of pylox/callable.py and
 * pylox/loxclass.py: user functions with their captured environment, classes
 * and their instances.
 *
 * Running a function body is `Interpreter.execute_block`, which is not part
 * of this model: `LoxFunction.Call` takes it as a parameter `execute` that
 * maps the body and the frames it runs in to how the body ended.
 */
module Objects {
  import opened Wrappers
  import opened LoxAst
  import opened Errors
  import opened Environments

  /** A Lox value at run time: Python's `None`, `bool`, `float`, `str`, or an object. */
  datatype Value =
    | VNil
    | VBool(boolValue: bool)
    | VNumber(number: real)
    | VString(text: string)
    | VFunction(fn: LoxFunction)
    | VClass(klass: LoxClass)
    | VInstance(instance: LoxInstance)

  /** How a function body ended: it ran off its end, a `LoxReturn` carried a value out, or it raised. */
  datatype BodyOutcome = Completed | Returned(value: Value) | Threw(error: Raised)

  /** What `call` makes of the body's outcome: `None` when the body ran off its end. */
  function CallResult(outcome: BodyOutcome): Result<Value>
  {
    match outcome
    case Completed => Ok(VNil)
    case Returned(v) => Ok(v)
    case Threw(e) => Err(e)
  }

  /** The frame `call` fills: argument `i` bound to parameter `i`, one after another. */
  function Bind(params: seq<Token>, args: seq<Value>): Frame<Value>
    requires |args| <= |params|
  {
    if args == [] then map[]
    else Bind(params, args[..|args| - 1])[params[|args| - 1].lexeme := Bound(args[|args| - 1])]
  }

  function FunctionDisplay(name: string): string
  {
    "<fun " + name + ">"
  }

  function ClassDisplay(name: string): string
  {
    "<class " + name + ">"
  }

  function InstanceDisplay(className: string): string
  {
    "<instance " + className + ">"
  }

  function UndefinedPropertyMessage(name: string): string
  {
    "Undefined property '" + name + "'."
  }

  // ----- what the object model guarantees -----

  /** With distinct parameter names, each argument is bound to its parameter and nothing else is bound. */
  lemma {:induction false} BindPositional(params: seq<Token>, args: seq<Value>)
    requires |args| <= |params| && DistinctNames(params)
    ensures forall key :: key in Bind(params, args) <==> exists i :: 0 <= i < |args| && params[i].lexeme == key
    ensures forall i :: 0 <= i < |args| ==>
      params[i].lexeme in Bind(params, args) && Bind(params, args)[params[i].lexeme] == Bound(args[i])
  {
    if args != [] {
      var n := |args| - 1;
      BindPositional(params, args[..n]);
      forall i | 0 <= i < n
        ensures Bind(params, args)[params[i].lexeme] == Bound(args[i])
      {
        assert params[i].lexeme != params[n].lexeme;
        assert args[..n][i] == args[i];
      }
    }
  }

  /** Inside the call, a parameter is found in the new frame, whatever the closure binds. */
  lemma ParamShadowsClosure(params: seq<Token>, args: seq<Value>, closureFrames: seq<Frame<Value>>, i: nat)
    requires |args| <= |params| && DistinctNames(params) && i < |args|
    ensures Lookup([Bind(params, args)] + closureFrames, params[i]) == Ok(args[i])
  {
    BindPositional(params, args);
  }

  /**
   * The three display strings never coincide, so a printed value shows whether
   * it is a function, a class or an instance, and the class and instance
   * strings tell names apart.
   */
  lemma DisplaysDistinct(a: string, b: string, c: string, d: string)
    ensures FunctionDisplay(a) != ClassDisplay(b)
    ensures FunctionDisplay(a) != InstanceDisplay(c)
    ensures ClassDisplay(b) != InstanceDisplay(c)
    ensures ClassDisplay(a) == ClassDisplay(d) <==> a == d
    ensures InstanceDisplay(a) == InstanceDisplay(d) <==> a == d
  {
    assert FunctionDisplay(a)[1] == 'f' && ClassDisplay(b)[1] == 'c' && InstanceDisplay(c)[1] == 'i';
    if ClassDisplay(a) == ClassDisplay(d) {
      assert a == ClassDisplay(a)[7..|a| + 7];
      assert d == ClassDisplay(d)[7..|d| + 7];
    }
    if InstanceDisplay(a) == InstanceDisplay(d) {
      assert a == InstanceDisplay(a)[10..|a| + 10];
      assert d == InstanceDisplay(d)[10..|d| + 10];
    }
  }

  /** The display string names the function, and tells functions apart by name. */
  lemma FunctionDisplayNames(a: string, b: string)
    ensures FunctionDisplay(a) == FunctionDisplay(b) <==> a == b
    ensures |FunctionDisplay(a)| == |a| + 6
  {
    if FunctionDisplay(a) == FunctionDisplay(b) {
      assert a == FunctionDisplay(a)[5..|a| + 5];
      assert b == FunctionDisplay(b)[5..|b| + 5];
    }
  }

  // ----- the objects -----

  /** `LoxFunction`: the declaration's name, parameters and body, and the captured environment. */
  class LoxFunction {
    const name: Token
    const params: seq<Token>
    const body: seq<Stmt>
    const closure: Environment<Value>
    /** `__arity`, fixed when the function is made. */
    const arity: nat := |params|

    constructor (name: Token, params: seq<Token>, body: seq<Stmt>, closure: Environment<Value>)
      ensures this.name == name && this.params == params && this.body == body && this.closure == closure
      ensures arity == |params|
    {
      this.name := name;
      this.params := params;
      this.body := body;
      this.closure := closure;
    }

    function Arity(): (n: nat)
      ensures n == |params|
    {
      arity
    }

    function Display(): string
    {
      FunctionDisplay(name.lexeme)
    }

    /**
     * `call`: a new frame enclosed by the closure, each argument defined in it
     * in order, then the body run in it. The closure gets no new binding.
     */
    method Call(arguments: seq<Value>, execute: (seq<Stmt>, seq<Frame<Value>>) -> BodyOutcome)
      returns (r: Result<Value>, ghost frame: Environment<Value>)
      requires closure.Valid()
      ensures fresh(frame) && frame.Valid() && frame.enclosing == Some(closure)
      ensures |arguments| <= |params| ==>
        && frame.values == Bind(params, arguments)
        && r == CallResult(execute(body, [frame.values] + closure.Frames()))
      ensures |arguments| > |params| ==>
        && frame.values == Bind(params, arguments[..|params|])
        && r == Err(IndexError)
    {
      var env := new Environment(Some(closure));
      frame := env;
      var i := 0;
      while i < |arguments|
        invariant i <= |arguments| && i <= |params|
        invariant env.values == Bind(params, arguments[..i])
      {
        if i == |params| {
          return Err(IndexError), frame;
        }
        assert arguments[..i + 1][..i] == arguments[..i];
        env.Define(params[i], Bound(arguments[i]));
        i := i + 1;
      }
      assert arguments[..i] == arguments;
      var frames := env.Chain();
      var outcome := execute(body, frames);
      r := CallResult(outcome);
    }
  }

  /** `LoxClass`: a name and its methods by name. */
  class LoxClass {
    const name: string
    const methods: map<string, LoxFunction>

    constructor (name: string, methods: map<string, LoxFunction>)
      ensures this.name == name && this.methods == methods
    {
      this.name := name;
      this.methods := methods;
    }

    /** A class takes no arguments. */
    function Arity(): (n: nat)
      ensures n == 0
    {
      0
    }

    function Display(): string
    {
      ClassDisplay(name)
    }

    /** `call`: the arguments are ignored and a fresh instance with no fields is made. */
    method Call(arguments: seq<Value>) returns (instance: LoxInstance)
      ensures fresh(instance) && instance.klass == this && instance.fields == map[]
      ensures forall n: Token :: instance.Get(n).Ok? <==> n.lexeme in methods
    {
      instance := new LoxInstance(this);
    }
  }

  /** `LoxInstance`: its class and its own mutable fields. */
  class LoxInstance {
    const klass: LoxClass
    var fields: map<string, Value>

    constructor (klass: LoxClass)
      ensures this.klass == klass && fields == map[]
    {
      this.klass := klass;
      fields := map[];
    }

    /** `get`: a field, else the class's method of that name, else an error. */
    function Get(name: Token): (r: Result<Value>)
      reads this
      ensures r.Ok? <==> name.lexeme in fields || name.lexeme in klass.methods
      ensures name.lexeme in fields ==> r == Ok(fields[name.lexeme])
      ensures name.lexeme !in fields && name.lexeme in klass.methods ==> r == Ok(VFunction(klass.methods[name.lexeme]))
      ensures r.Err? ==> r.error == LoxRuntimeError(name, UndefinedPropertyMessage(name.lexeme))
    {
      if name.lexeme in fields then Ok(fields[name.lexeme])
      else if name.lexeme in klass.methods then Ok(VFunction(klass.methods[name.lexeme]))
      else Err(LoxRuntimeError(name, UndefinedPropertyMessage(name.lexeme)))
    }

    function Display(): string
    {
      InstanceDisplay(klass.name)
    }

    /** `set`: create or overwrite one field and hand the value back; `get` then finds it, even over a method. */
    method Set(name: Token, value: Value) returns (r: Value)
      modifies this`fields
      ensures fields == old(fields)[name.lexeme := value] && r == value
      ensures Get(name) == Ok(value)
      ensures forall n: Token :: n.lexeme != name.lexeme ==> Get(n) == old(Get(n))
    {
      fields := fields[name.lexeme := value];
      r := value;
    }
  }
}
