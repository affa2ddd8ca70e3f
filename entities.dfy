/**
  The entity table of `entities.py`: the `Special` markers, the `Operator`
  and `Function` wrappers around a callable, and the lookup `get_entity`
  that consults the table first and the `math` module second.

  A wrapped callable is represented by a tag naming it, never evaluated; the
  `math` module is represented by the set of attribute names it has.
*/
module Entities {
  import opened Wrappers

  /** The members of the `Special` enum. */
  datatype Special = ParenLeft | ParenRight | Comma

  /** The value of a `Special` member. */
  function SpecialValue(s: Special): string {
    match s
    case ParenLeft => "("
    case ParenRight => ")"
    case Comma => ","
  }

  /**
    The callables the table wraps: `operator.add`, `operator.sub`,
    `operator.mul`, `div`, `operator.mod`, `operator.pow`, `operator.abs`,
    `math.sqrt`, and any other attribute of `math`, by name.
  */
  datatype Wrapped = Add | Sub | Mul | Div | Mod | Pow | Abs | Sqrt | MathAttr(name: string)

  /** The `associativity` argument: `"left"` (the default) or `"right"`. */
  datatype Associativity = Left | Right

  /** Which subclass of `Callable` an object is. */
  datatype CallableKind = OperatorKind | FunctionKind

  /** A `Callable`: its subclass and the three fields `__init__` sets. */
  datatype Callable = Callable(kind: CallableKind, func: Wrapped, associativity: Associativity, nArgs: int)

  /** `Operator(function, associativity, n_args)`, with the defaults of `Callable.__init__`. */
  function Operator(func: Wrapped, associativity: Associativity := Left, nArgs: int := 2): Callable {
    Callable(OperatorKind, func, associativity, nArgs)
  }

  /** `Function(function, associativity, n_args)`, with the defaults of `Callable.__init__`. */
  function Function(func: Wrapped, associativity: Associativity := Left, nArgs: int := 2): Callable {
    Callable(FunctionKind, func, associativity, nArgs)
  }

  /** An entity: a `Special` member, a wrapper, or the bare constant `math.pi`. */
  datatype Entity = SpecialEntity(special: Special) | CallableEntity(callable: Callable) | PiConstant

  /** `entity_mapping`. */
  const EntityMapping: map<string, Entity> := map[
    "(" := SpecialEntity(ParenLeft),
    ")" := SpecialEntity(ParenRight),
    "," := SpecialEntity(Comma),
    "^" := CallableEntity(Operator(Pow, associativity := Right)),
    "/" := CallableEntity(Operator(Div)),
    "\U{F7}" := CallableEntity(Operator(Div)),
    "*" := CallableEntity(Operator(Mul)),
    "\U{D7}" := CallableEntity(Operator(Mul)),
    "+" := CallableEntity(Operator(Add)),
    "-" := CallableEntity(Operator(Sub)),
    "%" := CallableEntity(Operator(Mod)),
    "abs" := CallableEntity(Function(Abs, nArgs := 1)),
    "sqrt" := CallableEntity(Function(Sqrt, nArgs := 1)),
    "\U{3C0}" := PiConstant,
    "pi" := PiConstant
  ]

  /** The keys of `entity_mapping`, in the order the table lists them. */
  const EntityKeys: seq<string> :=
    ["(", ")", ",", "^", "/", "\U{F7}", "*", "\U{D7}", "+", "-", "%", "abs", "sqrt", "\U{3C0}", "pi"]

  /** `get_entity` raised NotImplementedError: the token is neither a key nor an attribute of `math`. */
  datatype EntityError = NotImplemented

  /**
    `get_entity(token)`: the table entry for a key; otherwise a `Function`
    wrapping the `math` attribute of that name, with the default `"left"`
    and two arguments; otherwise an error.
  */
  function GetEntity(token: string, mathNames: set<string>): Result<Entity, EntityError> {
    if token in EntityMapping then Success(EntityMapping[token])
    else if token in mathNames then Success(CallableEntity(Function(MathAttr(token))))
    else Failure(NotImplemented)
  }

  /**
    `==` between two wrapped callables. The table's `math.sqrt` is the very
    object `getattr(math, "sqrt")` returns; distinct names are distinct
    objects; and `math.nan` is the one attribute not equal to itself.
  */
  function SameFunction(f: Wrapped, g: Wrapped): bool {
    var f', g' := Canonical(f), Canonical(g);
    f' == g' && f' != MathAttr("nan")
  }

  /** The table's `Sqrt` is `math.sqrt`. */
  function Canonical(f: Wrapped): Wrapped {
    if f == MathAttr("sqrt") then Sqrt else f
  }

  /** `Callable.__eq__`: the wrapped functions and the associativities are equal. */
  function CallableEq(a: Callable, b: Callable): bool {
    SameFunction(a.func, b.func) && a.associativity == b.associativity
  }

  /**
    `a == b` between two entities: `None` when Python raises AttributeError,
    because `Callable.__eq__` reads `other.function` of an object that has
    none (Python falls back to it from either side).
  */
  function EntityEq(a: Entity, b: Entity): Option<bool> {
    match (a, b)
    case (CallableEntity(x), CallableEntity(y)) => Some(CallableEq(x, y))
    case (CallableEntity(_), _) => None
    case (_, CallableEntity(_)) => None
    case (SpecialEntity(s), SpecialEntity(t)) => Some(s == t)
    case (PiConstant, PiConstant) => Some(true)
    case _ => Some(false)
  }

  /** The ordered key list and the table have the same keys, fifteen of them, none twice. */
  lemma EntityKeysAreTheTable()
    ensures |EntityKeys| == 15
    ensures forall i, j :: 0 <= i < j < |EntityKeys| ==> EntityKeys[i] != EntityKeys[j]
    ensures forall k :: k in EntityMapping <==> k in EntityKeys
  {
  }

  /** Every key of the table resolves to its entry, whatever `math` holds (`"sqrt"`, `"pi"`). */
  lemma GetEntityTable(token: string, mathNames: set<string>)
    requires token in EntityMapping
    ensures GetEntity(token, mathNames) == Success(EntityMapping[token])
  {
  }

  /** Each `Special` member is the entity of its own value. */
  lemma GetEntitySpecial(s: Special, mathNames: set<string>)
    ensures GetEntity(SpecialValue(s), mathNames) == Success(SpecialEntity(s))
  {
  }

  /** `"π"` and `"pi"` give the bare constant, not a wrapper. */
  lemma GetEntityPi(mathNames: set<string>)
    ensures GetEntity("\U{3C0}", mathNames) == Success(PiConstant)
    ensures GetEntity("pi", mathNames) == Success(PiConstant)
  {
  }

  /** The synonyms resolve to equal entities: `"/"` and `"÷"` (both `div`), `"*"` and `"×"` (both `mul`). */
  lemma GetEntitySynonyms(mathNames: set<string>)
    ensures EntityEq(GetEntity("/", mathNames).value, GetEntity("\U{F7}", mathNames).value) == Some(true)
    ensures EntityEq(GetEntity("*", mathNames).value, GetEntity("\U{D7}", mathNames).value) == Some(true)
  {
  }

  /**
    Equality of wrappers ignores `n_args` and the subclass: an `Operator`
    equals a `Function` around the same callable with the same
    associativity, whatever their argument counts.
  */
  lemma CallableEqIgnoresShape(k1: CallableKind, k2: CallableKind, f: Wrapped, a: Associativity, n1: int, n2: int)
    requires f != MathAttr("nan")
    ensures CallableEq(Callable(k1, f, a, n1), Callable(k2, f, a, n2))
  {
  }

  /** `math.nan` wrapped is not equal even to itself. */
  lemma CallableEqNan(a: Callable)
    requires a.func == MathAttr("nan")
    ensures !CallableEq(a, a)
  {
  }

  /** Comparing a wrapper with a `Special` member or with `math.pi` raises. */
  lemma EntityEqRaises(c: Callable, e: Entity)
    requires !e.CallableEntity?
    ensures EntityEq(CallableEntity(c), e) == None && EntityEq(e, CallableEntity(c)) == None
  {
  }

  /** `"^"` is the only right-associative entry of the table. */
  lemma OnlyPowIsRight(token: string)
    requires token in EntityMapping && EntityMapping[token].CallableEntity?
    ensures EntityMapping[token].callable.associativity == Right <==> token == "^"
  {
  }

  /**
    Every `Operator` of the table takes two arguments; the `Function`s of the
    table are `abs` and `sqrt`, and they take one.
  */
  lemma TableArgumentCounts(token: string)
    requires token in EntityMapping && EntityMapping[token].CallableEntity?
    ensures EntityMapping[token].callable.kind == OperatorKind ==> EntityMapping[token].callable.nArgs == 2
    ensures EntityMapping[token].callable.kind == FunctionKind <==> token == "abs" || token == "sqrt"
    ensures EntityMapping[token].callable.kind == FunctionKind ==> EntityMapping[token].callable.nArgs == 1
  {
  }

  /** `"-"` is binary subtraction, the only entry wrapping `sub`: there is no unary negation. */
  lemma MinusIsBinary(mathNames: set<string>)
    ensures GetEntity("-", mathNames) == Success(CallableEntity(Operator(Sub)))
    ensures forall token :: token in EntityMapping && EntityMapping[token].CallableEntity? && EntityMapping[token].callable.func == Sub ==>
      token == "-" && EntityMapping[token].callable.nArgs == 2
  {
  }

  /**
    A name the table lacks but `math` has becomes a `Function` around that
    attribute with the defaults: two arguments (even for a one-argument
    function such as `math.sin`) and `"left"`.
  */
  lemma GetEntityMathFallback(token: string, mathNames: set<string>)
    requires token !in EntityMapping && token in mathNames
    ensures GetEntity(token, mathNames) == Success(CallableEntity(Callable(FunctionKind, MathAttr(token), Left, 2)))
  {
  }

  /** `get_entity` fails exactly on a name that is neither a key of the table nor in `math`. */
  lemma GetEntityFails(token: string, mathNames: set<string>)
    ensures GetEntity(token, mathNames).Failure? <==> token !in EntityMapping && token !in mathNames
  {
  }
}
