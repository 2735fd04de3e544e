/**
 * The runtime object model (the inner classes of src/Tan.java): values,
 * user functions with their closures, classes with their method tables and
 * instances with their mutable fields. Functions, classes and instances are
 * heap objects, so value equality on them is reference identity, as it is in
 * Java for classes that do not override `equals`.
 */
module Tan {
  import opened Wrappers
  import opened Tokens
  import opened Ast
  import opened RuntimeErrors
  import opened Environments

  /** A runtime value; `Nil` is Java's null. */
  datatype Value =
    | Nil
    | Bool(b: bool)
    | Num(n: real)
    | Str(s: string)
    | Fun(fn: TanFunction)
    | Klass(klass: TanClass)
    | Instance(inst: TanInstance)

  /** A user function or method together with the environment it closes over. */
  class TanFunction {
    const declaration: FuncDecl
    const closure: Environment<Value>
    /** set for a class's `init` method: a call then yields the bound `this` */
    const isInitializer: bool

    constructor (declaration: FuncDecl, closure: Environment<Value>, isInitializer: bool)
      ensures this.declaration == declaration && this.closure == closure
      ensures this.isInitializer == isInitializer
    {
      this.declaration := declaration;
      this.closure := closure;
      this.isInitializer := isInitializer;
    }

    /** The number of arguments a call must pass. */
    function Arity(): nat
    {
      |declaration.params|
    }

    /**
     * The same function with a new closure, enclosed by the old one, that
     * binds only `this` to the instance.
     */
    method Bind(instance: TanInstance) returns (bound: TanFunction)
      requires closure.Valid()
      ensures fresh(bound) && fresh(bound.closure)
      ensures bound.declaration == declaration && bound.isInitializer == isInitializer
      ensures bound.closure.Valid() && bound.closure.prevEnv == closure
      ensures bound.closure.variable == map["this" := Instance(instance)]
      ensures bound.closure.Frames() == [map["this" := Instance(instance)]] + closure.Frames()
    {
      var newClosure := new Environment<Value>.Local(closure);
      newClosure.DefineVar("this", Instance(instance));
      bound := new TanFunction(declaration, newClosure, isInitializer);
    }
  }

  /** A class: its name, an optional superclass and its method table. */
  class TanClass {
    const identifier: string
    const superClass: TanClass?
    const methods: map<string, TanFunction>
    /** the length of the superclass chain above this class */
    ghost const height: nat

    /** The superclass chain is finite and every method's closure is a well-formed environment. */
    ghost predicate Valid()
      decreases height
    {
      && (forall name :: name in methods ==> methods[name].closure.Valid())
      && (superClass != null ==> superClass.height < height && superClass.Valid())
    }

    constructor (identifier: string, superClass: TanClass?, methods: map<string, TanFunction>)
      requires superClass != null ==> superClass.Valid()
      requires forall name :: name in methods ==> methods[name].closure.Valid()
      ensures Valid()
      ensures this.identifier == identifier && this.superClass == superClass && this.methods == methods
    {
      this.identifier := identifier;
      this.superClass := superClass;
      this.methods := methods;
      height := if superClass == null then 0 else superClass.height + 1;
    }

    /** The method tables of this class and its superclasses, nearest first. */
    ghost function MethodChain(): seq<map<string, TanFunction>>
      requires Valid()
      decreases height
    {
      if superClass == null then [methods] else [methods] + superClass.MethodChain()
    }

    /** The closures of every method along the chain. */
    ghost function Closures(): set<Environment<Value>>
      requires Valid()
      decreases height
    {
      (set name | name in methods :: methods[name].closure)
        + (if superClass == null then {} else superClass.Closures())
    }

    /** This class's own method, else the superclass's answer, else nothing. */
    function FindMethod(fieldName: string): Option<TanFunction>
      requires Valid()
      decreases height
    {
      if fieldName in methods then Some(methods[fieldName])
      else if superClass != null then superClass.FindMethod(fieldName)
      else None
    }

    /** Method lookup picks the nearest class in the chain that defines the name. */
    lemma {:induction false} FindMethodNearest(fieldName: string)
      requires Valid()
      ensures FindMethod(fieldName) == Find(MethodChain(), fieldName)
      ensures FindMethod(fieldName).Some? ==> FindMethod(fieldName).value.closure.Valid()
      decreases height
    {
      var chain := MethodChain();
      if fieldName !in methods && superClass != null {
        superClass.FindMethodNearest(fieldName);
        assert chain[1..] == superClass.MethodChain();
      }
    }

    /** A method the lookup finds closes over one of the chain's closures. */
    lemma {:induction false} FoundInClosures(fieldName: string)
      requires Valid() && FindMethod(fieldName).Some?
      ensures FindMethod(fieldName).value.closure in Closures()
      ensures FindMethod(fieldName).value.closure.Valid()
      decreases height
    {
      if fieldName !in methods {
        superClass.FoundInClosures(fieldName);
      }
    }

    /** The arity of `init` if the class has one, else 0. */
    function Arity(): nat
      requires Valid()
    {
      match FindMethod("init")
        case Some(initializer) => initializer.Arity()
        case None => 0
    }

    /** A class's arity is the parameter count of the nearest `init` in its chain, or 0. */
    lemma ArityOfInit()
      requires Valid()
      ensures var chain := MethodChain();
        match Nearest(chain, "init")
          case Some(k) => Arity() == |chain[k]["init"].declaration.params|
          case None => Arity() == 0
    {
      FindMethodNearest("init");
    }
  }

  /** An instance of a class with its mutable field map. */
  class TanInstance {
    const klass: TanClass
    var fields: map<string, Value>

    constructor (klass: TanClass)
      ensures this.klass == klass && fields == map[]
    {
      this.klass := klass;
      fields := map[];
    }

    /**
     * A field if the instance has one, else the class's method bound to this
     * instance, else an "Undefined property" error at the property name.
     */
    method Get(fieldName: Token) returns (r: Result<Value, RuntimeError>)
      requires klass.Valid()
      ensures var field := fieldName.lexeme;
        if field in fields then r == Success(fields[field])
        else match klass.FindMethod(field)
          case None => r == Failure(RuntimeError(AtToken(fieldName), "Undefined property: " + field))
          case Some(m) =>
            && r.Success? && r.value.Fun?
            && fresh(r.value.fn) && fresh(r.value.fn.closure)
            && r.value.fn.declaration == m.declaration && r.value.fn.isInitializer == m.isInitializer
            && r.value.fn.closure.Valid() && r.value.fn.closure.prevEnv == m.closure
            && r.value.fn.closure.variable == map["this" := Instance(this)]
    {
      var field := fieldName.lexeme;
      if field in fields {
        return Success(fields[field]);
      }
      var found := klass.FindMethod(field);
      if found.Some? {
        klass.FindMethodNearest(field);
        var bound := found.value.Bind(this);
        return Success(Fun(bound));
      }
      return Failure(RuntimeError(AtToken(fieldName), "Undefined property: " + field));
    }

    /** Creates or overwrites one field. */
    method Set(fieldName: Token, value: Value)
      modifies this`fields
      ensures fields == old(fields)[fieldName.lexeme := value]
    {
      fields := fields[fieldName.lexeme := value];
    }
  }
}
