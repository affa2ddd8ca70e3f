/**
  The lexing helpers of `shunting_yard.py`: its own character table and the
  generic `classify_char` search over such a table, the `Bracket` enum, and
  the `Token` class with its subclasses, whose `value` grows by `append`
  and is read by `get_value`.
*/
module ShuntingYard {
  import opened Wrappers
  import opened PythonInt

  /** A character table: named character sets, in the order the dict lists them. */
  type CharTable = seq<(string, set<char>)>

  /** This file's `CHAR_TYPES`: brackets of all three flavours are parens, `^` is no operator. */
  const CharTypes: CharTable := [
    ("paren", {'(', ')', '[', ']', '{', '}'}),
    ("operator", {'+', '-', '*', '/'}),
    ("letter", set c: char | 'a' <= c <= 'z'),
    ("digit", set c: char | '0' <= c <= '9'),
    ("whitespace", {' ', '\t', '\n'})
  ]

  /** The position of the first entry of `table` whose set holds `c`, if any. */
  function FirstMatch(c: char, table: CharTable): (k: Option<nat>)
    ensures k.Some? ==> k.value < |table| && c in table[k.value].1 && forall j :: 0 <= j < k.value ==> c !in table[j].1
    ensures k.None? ==> forall j :: 0 <= j < |table| ==> c !in table[j].1
  {
    if table == [] then None
    else
      var k := FirstMatch(c, table[..|table| - 1]);
      if k.Some? then k
      else if c in table[|table| - 1].1 then Some(|table| - 1)
      else None
  }

  /** A position whose set holds `c`, with no earlier one that does, is the first match. */
  lemma FirstMatchUnique(c: char, table: CharTable, i: nat)
    requires i < |table| && c in table[i].1
    requires forall j :: 0 <= j < i ==> c !in table[j].1
    ensures FirstMatch(c, table) == Some(i)
  {
    var k := FirstMatch(c, table);
    assert k.Some?;
    assert c in table[k.value].1;
  }

  /** What `classify_char(c, table)` returns: the key of the first set holding `c`, or `None`. */
  function Classify(c: char, table: CharTable): Option<string> {
    match FirstMatch(c, table)
    case None => None
    case Some(k) => Some(table[k].0)
  }

  /** `classify_char(c, char_types)`: the dict is searched in order and the first hit returned. */
  method ClassifyChar(c: char, charTypes: CharTable) returns (r: Option<string>)
    ensures r == Classify(c, charTypes)
  {
    for i := 0 to |charTypes|
      invariant forall j :: 0 <= j < i ==> c !in charTypes[j].1
    {
      var (key, values) := charTypes[i];
      if c in values {
        FirstMatchUnique(c, charTypes, i);
        return Some(key);
      }
    }
    return None;
  }

  /** No character is in two sets of a table. */
  predicate Disjoint(table: CharTable) {
    forall i, j :: 0 <= i < j < |table| ==> table[i].1 !! table[j].1
  }

  /** In a table of disjoint sets the order does not matter: the key of the one set holding `c` is found. */
  lemma ClassifyDisjoint(c: char, table: CharTable, i: nat)
    requires Disjoint(table)
    requires i < |table| && c in table[i].1
    ensures Classify(c, table) == Some(table[i].0)
  {
    forall j | 0 <= j < i
      ensures c !in table[j].1
    {
      assert table[j].1 !! table[i].1;
    }
    FirstMatchUnique(c, table, i);
  }

  /** A character in none of the sets is classified as `None`. */
  lemma ClassifyNone(c: char, table: CharTable)
    requires forall j :: 0 <= j < |table| ==> c !in table[j].1
    ensures Classify(c, table) == None
  {
  }

  /** The sets of this file's `CHAR_TYPES` are pairwise disjoint. */
  lemma CharTypesDisjoint()
    ensures Disjoint(CharTypes)
  {
  }

  /** Square and curly brackets are parens here, as round ones are. */
  lemma ClassifyBrackets(c: char)
    requires c in {'(', ')', '[', ']', '{', '}'}
    ensures Classify(c, CharTypes) == Some("paren")
  {
    CharTypesDisjoint();
    ClassifyDisjoint(c, CharTypes, 0);
  }

  /** The caret, the decimal point, the comma and upper-case letters are in no set. */
  lemma ClassifyUnknown(c: char)
    requires c == '^' || c == '.' || c == ',' || 'A' <= c <= 'Z'
    ensures Classify(c, CharTypes) == None
  {
    ClassifyNone(c, CharTypes);
  }

  /** `Bracket`. */
  datatype Bracket = Open | Close

  /** The exceptions `get_value` and `append` can raise. */
  datatype PyError = NotImplementedError | AssertionError | TypeError | ValueError | AttributeError

  /** What a `get_value` returns: `None`, a bracket, an integer, or a `math` attribute by name. */
  datatype Value = NoValue | BracketValue(bracket: Bracket) | IntValue(n: int) | MathFunction(name: string)

  /** The class of a token: the base `Token` or one of its subclasses. */
  datatype TokenKind = BaseToken | WhitespaceToken | ParenToken | NumberToken | FunctionToken

  /** `a` occurs in `b` at position 0. */
  predicate IsPrefix(a: string, b: string) {
    |a| <= |b| && b[..|a|] == a
  }

  /** Python's `a in b` on two strings: `a` occurs in `b` as a substring. */
  predicate IsSubstring(a: string, b: string) {
    IsPrefix(a, b) || (b != [] && IsSubstring(a, b[1..]))
  }

  /**
    `Paren.get_value`: `OPEN` when the value is a substring of `"({["`,
    `CLOSE` when it is one of `"]})"`, `None` otherwise (the method falls
    off its end); `in` on a `None` value raises TypeError.
  */
  function ParenValue(value: Option<string>): Result<Value, PyError> {
    match value
    case None => Failure(TypeError)
    case Some(s) =>
      if IsSubstring(s, "({[") then Success(BracketValue(Open))
      else if IsSubstring(s, "]})") then Success(BracketValue(Close))
      else Success(NoValue)
  }

  /** `Number.get_value`: the value must not be `None`, and `int` must accept it. */
  function NumberValue(value: Option<string>): Result<Value, PyError> {
    match value
    case None => Failure(AssertionError)
    case Some(s) =>
      match ParseInt(s)
      case None => Failure(ValueError)
      case Some(n) => Success(IntValue(n))
  }

  /**
    `Function.get_value`: `getattr(math, value)`, which raises
    AttributeError for a name `math` lacks and TypeError for a `None` name.
  */
  function FunctionValue(value: Option<string>, mathNames: set<string>): Result<Value, PyError> {
    match value
    case None => Failure(TypeError)
    case Some(s) => if s in mathNames then Success(MathFunction(s)) else Failure(AttributeError)
  }

  /** `get_value`, dispatched on the class of the token. */
  function TokenValue(kind: TokenKind, value: Option<string>, mathNames: set<string>): Result<Value, PyError> {
    match kind
    case BaseToken => Failure(NotImplementedError)
    case WhitespaceToken => Success(NoValue)
    case ParenToken => ParenValue(value)
    case NumberToken => NumberValue(value)
    case FunctionToken => FunctionValue(value, mathNames)
  }

  /** A `Token` (or an instance of a subclass): its class, fixed, and its `value`, which `append` extends. */
  class Token {
    const kind: TokenKind
    var value: Option<string>

    /** `Token(value)`, or the constructor of a subclass. */
    constructor(kind: TokenKind, value: Option<string>)
      ensures this.kind == kind && this.value == value
    {
      this.kind := kind;
      this.value := value;
    }

    /** `append(char)`: the value must not be `None`; the character string is added at its end. */
    method Append(ch: string)
      requires value.Some?
      modifies this
      ensures value == Some(old(value).value + ch)
    {
      value := Some(value.value + ch);
    }

    /** `get_value()` of this token. */
    function GetValue(mathNames: set<string>): Result<Value, PyError>
      reads this
    {
      TokenValue(kind, value, mathNames)
    }
  }

  /** The base `get_value` always raises; a whitespace token's value is always `None`. */
  lemma BaseAndWhitespaceValues(value: Option<string>, mathNames: set<string>)
    ensures TokenValue(BaseToken, value, mathNames) == Failure(NotImplementedError)
    ensures TokenValue(WhitespaceToken, value, mathNames) == Success(NoValue)
  {
  }

  /** Every string is a substring of itself, and the empty string is a substring of any. */
  lemma {:induction false} SubstringSelf(s: string)
    ensures IsSubstring(s, s) && IsSubstring([], s)
  {
    assert s[..|s|] == s;
    assert s[..0] == [];
  }

  /** A single character is a substring exactly when it occurs. */
  lemma {:induction false} SubstringChar(c: char, b: string)
    ensures IsSubstring([c], b) <==> c in b
  {
    if b != [] {
      SubstringChar(c, b[1..]);
      assert b == [b[0]] + b[1..];
    }
  }

  /**
    For a one-character value, brackets of the three flavours give `OPEN`
    or `CLOSE` without matching flavours, and anything else gives `None`.
  */
  lemma ParenValueChar(c: char)
    ensures ParenValue(Some([c])) ==
      if c in "({[" then Success(BracketValue(Open))
      else if c in "]})" then Success(BracketValue(Close))
      else Success(NoValue)
  {
    SubstringChar(c, "({[");
    SubstringChar(c, "]})");
  }

  /** `in` tests substrings: the empty value and `"({["` itself are `OPEN`, `"]})"` is `CLOSE`. */
  lemma ParenValueSubstrings()
    ensures ParenValue(Some("")) == Success(BracketValue(Open))
    ensures ParenValue(Some("({[")) == Success(BracketValue(Open))
    ensures ParenValue(Some("]})")) == Success(BracketValue(Close))
    ensures ParenValue(None) == Failure(TypeError)
  {
    SubstringSelf("({[");
    SubstringSelf("]})");
  }

  /**
    A number token made of digits has their decimal value, unless it has
    more than `MaxStrDigits` digits and `int` raises ValueError; `None`
    fails the assertion.
  */
  lemma NumberValueDigits(d: string)
    requires d != [] && AllDigits(d)
    ensures NumberValue(Some(d)) == if |d| <= MaxStrDigits then Success(IntValue(DecimalValue(d))) else Failure(ValueError)
    ensures NumberValue(None) == Failure(AssertionError)
  {
    ParseIntDigits(d);
  }

  /** A number token whose value `int` refuses raises ValueError. */
  lemma NumberValueRefused(s: string)
    requires forall i :: 0 <= i < |s| ==> !IsDigit(s[i])
    ensures NumberValue(Some(s)) == Failure(ValueError)
  {
    ParseIntNeedsDigit(s);
  }
}
