# A verified model of the shunting-yard front end

This project is a Dafny model of the front end of a small Python calculator. It covers three files.

- `tokenizer.py` is the lexer and the integer enrichment.
  - `tokenize` cuts an input string into maximal runs of characters of one token type, using the five classes of `CHAR_TYPES` / `TOKEN_TYPES`.
  - It drops whitespace runs when the next run begins.
  - It yields whatever is pending at the end, unconditionally.
  - `enrich` converts every token with Python's `int` and gives up at the first token that is not an integer.
- `entities.py` holds the entity table.
  - It defines the `Special` markers and the `Operator` and `Function` wrappers, with an associativity and an argument count.
  - `entity_mapping` is the table itself, and `get_entity` falls back to the `math` module.
  - `Callable.__eq__` compares only the wrapped function and the associativity.
- `shunting_yard.py` holds the lexing helpers: its own `CHAR_TYPES`, the generic `classify_char` search, `Bracket`, the `Token` class with its in-place `append`, and the `get_value` methods of the token subclasses.

Modules, one per file:

- `wrappers.dfy` (`Wrappers`) holds `Option` and `Result`.
- `python_int.dfy` (`PythonInt`) models Python's `int(str)` in base 10:
  - surrounding whitespace is stripped: ASCII space, tab, newline, `\v`, `\f` and `\r`, and the non-ASCII whitespace of `str.isspace`, but not the ASCII separators U+001C to U+001F;
  - one optional sign is accepted;
  - digits may be grouped by single underscores;
  - leading zeros are accepted;
  - a numeral of more than 4300 digits is refused (CPython's default `sys.get_int_max_str_digits()`); leading zeros count toward the limit, underscores and the sign do not.
- `tokenizer.dfy` (`Tokenizer`) holds the lexer.
  - `Tokenize` is a method whose `for` loop mirrors the source loop.
  - It is proved equal to the specification function `Tokens`, which is built from `Runs`, the maximal runs of the input.
  - `Runs` is characterised independently: it is the unique split of the input into uniform pieces whose neighbours have different types.
- `enrich.dfy` (`Enrichment`) holds `enrich` and the facts that connect it to the tokens `tokenize` produces.
- `entities.dfy` (`Entities`) holds the entity table.
  - Wrapped callables are tags that are never evaluated.
  - The `math` module is a parameter: the set of its attribute names.
- `shunting_yard.dfy` (`ShuntingYard`) holds `classify_char`, a method with a loop proved against `Classify`. `Token` is a class with a mutable `value` field.

Behaviours of the code the model keeps as they are:

- Runs of operators and runs of parentheses merge into one token: `"--5"` gives `["--", "5"]`, and `"(("` is one token.
- The empty input yields a single `None`.
- A trailing whitespace run is yielded as the last token.
- `tokenizer.py`'s table has no decimal point and no `÷` or `×`, so the lexer does not know those characters, although `entity_mapping` has keys for `÷` and `×`.
- `"-"` resolves only to binary subtraction: there is no unary negation.
- `raise f"..."` at tokenizer.py line 56 raises a TypeError, because a string is not an exception. The model reports a lexing failure that carries the first unknown character and its position.

## Model

| member | source | states |
|---|---|---|
| Tokenizer.TokenTypeOf | tokenizer.py:34-42 | `TOKEN_TYPES` as a lookup; no ensures of its own: stated by TokenTypesTable, UnknownCharacters and WhitespaceType |
| Tokenizer.TokenTypesTable | tokenizer.py:34-42 | a character's token type in `TOKEN_TYPES` is `t` exactly when the character is in the `CHAR_TYPES` set behind `t` (the sets are disjoint, so the merge order is irrelevant) |
| Tokenizer.UnknownCharacters | tokenizer.py:20-30 | `,`, `.`, upper-case letters, `÷`, `×`, `π`, `%`, `[` and `\r` have no token type |
| Tokenizer.WhitespaceType | tokenizer.py:29 | the whitespace type is given exactly to space, tab and newline |
| Tokenizer.Tokenize | tokenizer.py:51-67 | on an input made only of known characters the result is the token list `Tokens(input)`; otherwise the call fails and reports the first unknown character and its position |
| Tokenizer.Step | tokenizer.py:57-65 | one loop iteration keeps the loop invariant: the last run of the prefix is pending with its type, and the earlier non-whitespace runs have been yielded |
| Tokenizer.NewRunStep | tokenizer.py:58-62 | a character of another type yields the pending token unless it is whitespace or absent, and starts a new one-character token |
| Tokenizer.ExtendStep | tokenizer.py:63-65 | a character of the pending type is appended to the pending token |
| Tokenizer.PendingDone | tokenizer.py:66-67 | after the loop, the yielded tokens followed by the pending token are exactly `Tokens(s)` |
| Tokenizer.Runs | tokenizer.py:54-65 | the runs are non-empty, there are none exactly for the empty input, and the last run has the type of the last character |
| Tokenizer.RunsSplit | tokenizer.py:57-65 | the runs concatenate to the input, each run is single-typed, and neighbouring runs differ in type (a new token starts exactly at a change of type) |
| Tokenizer.RunSplitUnique | tokenizer.py:57-65 | any split into single-typed pieces with differing neighbours is the one `Runs` computes |
| Tokenizer.Emitted | tokenizer.py:59-60 | the runs yielded on a change of type are no more than the runs, and none of them is whitespace |
| Tokenizer.Tokens | tokenizer.py:66-67 | the output is never empty; its last element is `None` exactly for the empty input and is otherwise the last run; every earlier element is a non-whitespace string |
| Tokenizer.TokensText | tokenizer.py:54-67 | the tokens spell the input with its whitespace removed, followed by the trailing whitespace run when the input ends in whitespace |
| Tokenizer.TokensTextNoTrailingSpace | tokenizer.py:54-67 | for a non-empty input not ending in whitespace, the tokens concatenate to the input with all whitespace removed, in order |
| Tokenizer.TokensAppend | tokenizer.py:58-62 | when two strings meet at a change of token type, the tokens of the concatenation are the yielded runs of the first followed by the tokens of the second |
| Tokenizer.TokensCons | tokenizer.py:58-62 | a single-typed run followed by a character of another type contributes itself as the first token, or nothing when it is whitespace |
| Tokenizer.TokensUniform | tokenizer.py:63-67 | a single-typed input is one token, whitespace included |
| Tokenizer.TokensConsRun | tokenizer.py:58-62 | a non-whitespace run before tokens of another type is prepended to them |
| Tokenizer.TokensConsSpace | tokenizer.py:59-60 | a whitespace character before a non-whitespace one is dropped |
| Tokenizer.TokensTwoRuns | tokenizer.py:58-67 | two runs of different types, the first not whitespace, are exactly two tokens |
| Tokenizer.TokensCallShape | tests/test_tokenizer.py:29 | a number, a space-surrounded operator, a function name and a parenthesised number give six tokens, with the spaces dropped |
| Tokenizer.TokensCallPieces | tests/test_tokenizer.py:29 | the pieces `302`, ` `, `+`, ` `, `sin`, `(`, `400`, `)` tokenize to `302 + sin ( 400 )` |
| Tokenizer.TokensExampleCall | tests/test_tokenizer.py:29 | `"302 + sin(400)"` gives `["302", "+", "sin", "(", "400", ")"]` |
| Tokenizer.TokensExampleSum | tests/test_tokenizer.py:28 | `"3+4"` gives `["3", "+", "4"]` |
| Tokenizer.TokensDoubleMinus | tokenizer.py:58-65 | `"--5"` gives `["--", "5"]`: same-class operators merge |
| Tokenizer.TokensDoubleParen | tokenizer.py:63-65 | `"(("` is a single token |
| Tokenizer.TokensLeadingSpace | tokenizer.py:59-60 | `" 3"` gives `["3"]`: a leading whitespace run is dropped |
| Tokenizer.TokensTrailingSpace | tokenizer.py:66-67 | `"3 "` gives `["3", " "]`: the trailing whitespace run is yielded last |
| Tokenizer.TokensEmpty | tokenizer.py:52-67 | the empty input yields exactly one `None` |
| PythonInt.ParseInt | tokenizer.py:84 | `int(s)`; no ensures of its own: stated by ParseIntDigits, ParseIntGroups, ParseIntLeadingZeros, ParseIntPadded, ParseIntSigned, ParseIntSeparator, ParseIntDoubleSign, ParseIntSignOnly, ParseIntNeedsDigit and ParseIntBlank |
| PythonInt.ParseStripped | tokenizer.py:84 | `int` on text with no surrounding whitespace; no ensures of its own: stated by ParseStrippedSign and, through ParseInt, by the ParseInt lemmas |
| PythonInt.ParseIntDigits | tokenizer.py:84 | `int` of a non-empty string of ASCII digits is its decimal value when it has at most 4300 digits, and raises when it has more |
| PythonInt.ParseIntGroups | tokenizer.py:84 | digits grouped by single underscores give the value of the digits; the 4300-digit limit counts the digits, not the underscores |
| PythonInt.ParseIntLeadingZeros | tokenizer.py:84 | leading zeros are accepted and do not change the value, but they count toward the 4300-digit limit: a longer numeral is refused |
| PythonInt.ParseIntPadded | tokenizer.py:84 | whitespace `int` strips around a numeral is ignored; the numeral is then subject to the 4300-digit limit |
| PythonInt.ParseIntSigned | tokenizer.py:84 | one leading `+` or `-` is accepted and sets the sign; the sign does not count toward the 4300-digit limit |
| PythonInt.ParseIntSeparator | tokenizer.py:84 | a string starting with one of the ASCII separators U+001C to U+001F is refused, because `int` does not strip them |
| PythonInt.ParseStrippedSign | tokenizer.py:84 | on text with no surrounding whitespace that starts with `+` or `-`, `int` accepts exactly digit groups of at most 4300 digits after the sign, and the sign gives the value's sign |
| PythonInt.ParseIntDoubleSign | tokenizer.py:84 | two signs in a row (`"--5"`) are refused |
| PythonInt.ParseIntSignOnly | tokenizer.py:84 | a sign alone (`"+"`) is refused |
| PythonInt.ParseIntNeedsDigit | tokenizer.py:84 | a string without any digit (operators, letters, parens, whitespace) is refused |
| PythonInt.ParseIntBlank | tokenizer.py:84 | a whitespace-only string is refused |
| PythonInt.StripLeading | tokenizer.py:84 | the leading whitespace removed is all whitespace, and the rest starts with a non-space |
| PythonInt.StripTrailing | tokenizer.py:84 | the trailing whitespace removed is all whitespace, and the rest ends with a non-space |
| Enrichment.IntOf | tokenizer.py:84 | `int(item)`, with `int(None)` raising; no ensures of its own: stated by RunIntValue and EnrichNone |
| Enrichment.Collect | tokenizer.py:82-87 | on success, one value per item in order; on failure, the index of the first item without a value |
| Enrichment.Enrich | tokenizer.py:75-87 | on success, the result has one integer per item and each is that item's `int`, in order; on failure, the reported item is the first one `int` refuses and every earlier item was accepted |
| Enrichment.EnrichSucceeds | tokenizer.py:82-87 | enrichment succeeds exactly when `int` accepts every item |
| Enrichment.EnrichFirstFailure | tokenizer.py:85-87 | the failure is fully determined: it is at the first refused item |
| Enrichment.EnrichAllValues | tokenizer.py:82-85 | the success is fully determined: the values are the `int`s of the items |
| Enrichment.RunIntValue | tokenizer.py:83-87 | a number run of at most 4300 digits converts to its decimal value and a longer one is refused; an operator, letter, paren or whitespace run is refused |
| Enrichment.EnrichNone | tokenizer.py:84-87 | the lone `None` of the empty input is refused at index 0 |
| Enrichment.TokensAreRuns | tokenizer.py:57-67 | every token of a non-empty input is present and single-typed |
| Enrichment.EnrichTokens | tokenizer.py:82-87 | enriching the tokens of an input succeeds exactly when the input is non-empty and every token is a number run of at most 4300 digits, and then yields their decimal values in order |
| Enrichment.EnrichSingle | tokenizer.py:82-87 | a single item gives its `int`, or the failure at index 0 |
| Enrichment.EnrichNumeral | tokenizer.py:83-87 | a numeral alone is enriched to its decimal value, or refused at index 0 when it has more than 4300 digits |
| Enrichment.EnrichLeadingZeros | tokenizer.py:83-87 | leading zeros do not change what a numeral is enriched to while it stays within 4300 digits; past that it is refused at index 0 |
| Enrichment.EnrichSumShape | tokenizer.py:82-87 | number, operator, number: the first number is converted and the failure is at index 1, or the failure is at index 0 when the first number has more than 4300 digits |
| Enrichment.EnrichExampleSum | tokenizer.py:82-87 | `enrich(tokenize("3+4"))` fails at the `+` (index 1); the `3` before it is accepted |
| Entities.EntityMapping | entities.py:59-81 | `entity_mapping`; a constant: stated by EntityKeysAreTheTable, GetEntitySpecial, GetEntityPi, OnlyPowIsRight, TableArgumentCounts and MinusIsBinary |
| Entities.GetEntity | entities.py:87-97 | `get_entity`; no ensures of its own: stated by GetEntityTable, GetEntityMathFallback and GetEntityFails |
| Entities.CallableEq | entities.py:40-41 | `Callable.__eq__`; no ensures of its own: stated by CallableEqIgnoresShape, CallableEqNan and GetEntitySynonyms |
| Entities.EntityEq | entities.py:40-41 | `==` between entities, `None` when it raises; no ensures of its own: stated by EntityEqRaises and GetEntitySynonyms |
| Entities.EntityKeysAreTheTable | entities.py:59-81 | the table has fifteen distinct keys, listed in order |
| Entities.GetEntityTable | entities.py:87-97 | every key resolves to its table entry, whatever `math` holds |
| Entities.GetEntitySpecial | entities.py:23-26 | `"("`, `")"` and `","` resolve to their `Special` members |
| Entities.GetEntityPi | entities.py:78-79 | `"π"` and `"pi"` resolve to the bare constant, not a wrapper |
| Entities.GetEntitySynonyms | entities.py:67-70 | `"/"` equals `"÷"` and `"*"` equals `"×"` under `==` |
| Entities.CallableEqIgnoresShape | entities.py:40-41 | wrappers around the same callable with the same associativity are equal, whatever their `n_args` and whether `Operator` or `Function` |
| Entities.CallableEqNan | entities.py:40-41 | a wrapper around `math.nan` is not equal to itself |
| Entities.EntityEqRaises | entities.py:40-41 | comparing a wrapper with a `Special` member or with `math.pi` raises, from either side |
| Entities.OnlyPowIsRight | entities.py:66-76 | `"^"` is the only right-associative entry |
| Entities.TableArgumentCounts | entities.py:66-76 | every table `Operator` takes 2 arguments; the `Function`s are exactly `abs` and `sqrt`, and they take 1 |
| Entities.MinusIsBinary | entities.py:72 | `"-"` is binary `sub`, the only entry wrapping `sub`, so there is no unary negation |
| Entities.GetEntityMathFallback | entities.py:89-96 | a name missing from the table but present in `math` becomes a `Function` around that attribute, with 2 arguments and `"left"` |
| Entities.GetEntityFails | entities.py:91-93 | lookup fails exactly for a name in neither the table nor `math` |
| ShuntingYard.CharTypes | shunting_yard.py:16-23 | this file's `CHAR_TYPES`; a constant: stated by CharTypesDisjoint, ClassifyBrackets and ClassifyUnknown |
| ShuntingYard.Classify | shunting_yard.py:40-44 | what `classify_char` returns; no ensures of its own: stated by ClassifyChar, ClassifyDisjoint and ClassifyNone, through FirstMatch |
| ShuntingYard.FirstMatch | shunting_yard.py:40-44 | the position found is the first whose set holds the character; no position means no set holds it |
| ShuntingYard.FirstMatchUnique | shunting_yard.py:40-44 | the first position holding the character is the one found |
| ShuntingYard.ClassifyChar | shunting_yard.py:40-44 | the loop returns the key of the first set, in table order, that holds the character, or `None` |
| ShuntingYard.ClassifyDisjoint | shunting_yard.py:40-44 | in a table of disjoint sets, the key of the one set holding the character is returned |
| ShuntingYard.ClassifyNone | shunting_yard.py:44 | a character in no set is classified as `None` |
| ShuntingYard.CharTypesDisjoint | shunting_yard.py:16-23 | the sets of this file's `CHAR_TYPES` are pairwise disjoint |
| ShuntingYard.ClassifyBrackets | shunting_yard.py:17 | round, square and curly brackets are all `"paren"` |
| ShuntingYard.ClassifyUnknown | shunting_yard.py:16-23 | `^`, `.`, `,` and upper-case letters classify as `None` |
| ShuntingYard.Token.constructor | shunting_yard.py:52-53 | a new token has the given class and value |
| ShuntingYard.Token.Append | shunting_yard.py:55-57 | requires a value that is not `None`; the new value is the old one followed by the appended string, and nothing else changes |
| ShuntingYard.TokenValue | shunting_yard.py:59-97 | `get_value` dispatched on the token's class; no ensures of its own: stated by BaseAndWhitespaceValues and the lemmas on ParenValue and NumberValue |
| ShuntingYard.Token.GetValue | shunting_yard.py:59-97 | `get_value()` of a token object; no ensures of its own: it is TokenValue of the token's class and current value |
| ShuntingYard.ParenValue | shunting_yard.py:73-78 | `Paren.get_value`; no ensures of its own: stated by ParenValueChar and ParenValueSubstrings |
| ShuntingYard.NumberValue | shunting_yard.py:85-87 | `Number.get_value`; no ensures of its own: stated by NumberValueDigits and NumberValueRefused |
| ShuntingYard.BaseAndWhitespaceValues | shunting_yard.py:59-67 | the base `get_value` always raises NotImplementedError; `Whitespace.get_value` is always `None` |
| ShuntingYard.ParenValueChar | shunting_yard.py:73-78 | a one-character value `(`, `{` or `[` gives `OPEN`; `)`, `}` or `]` gives `CLOSE`, whatever the flavour; any other character gives `None` |
| ShuntingYard.ParenValueSubstrings | shunting_yard.py:75-78 | `in` tests substrings: `""` and `"({["` give `OPEN`, `"]})"` gives `CLOSE`, and a `None` value raises TypeError |
| ShuntingYard.SubstringChar | shunting_yard.py:75-78 | a one-character string is a substring exactly when the character occurs |
| ShuntingYard.NumberValueDigits | shunting_yard.py:85-87 | a digit string gives its decimal value when it has at most 4300 digits and raises ValueError when it has more; a `None` value fails the assertion |
| ShuntingYard.NumberValueRefused | shunting_yard.py:85-87 | a value without digits raises ValueError |

## Left out

- The infix-to-postfix conversion and the evaluation of postfix tokens are not modelled. `get_rpn_tokens` only raises (shunting_yard.py:139-140), and the evaluator is not in the code.
- `shunting_yard.tokenize` (shunting_yard.py:101-130) is not modelled. It calls `classify_char` with one argument instead of two, yields `None` after every token, and ends by raising.
- `Function.get_value` (shunting_yard.py:94-97) is modelled as `FunctionValue` on the set of `math` names, with no lemma of its own.
- This file's `TokenType` enum defines only `PAREN`, so the class body of `Whitespace` cannot be evaluated. The class attributes `token_type` are not modelled, and the helpers are modelled as if the module loaded.
- Wrapped callables are tags and are never called:
  - `Callable.__call__`, the true division of `div`, `operator.pow`, `math.sqrt` and the value of `math.pi` are not modelled;
  - equality between tags is object identity;
  - `math.sqrt` is the table's `sqrt` object, and `math.nan` is unequal to itself.
- `getattr(math, name)` is represented by a set of attribute names, given as a parameter.
- Python's exception mechanics are reduced to a whole-result success or failure. Generators are lazy, so tokens before a bad character or a refused item have already been yielded; the model does not show this.
- `Tokenize`: the failure names the first unknown character and its position, whereas Python raises a TypeError with no payload.
- `Enrich`: the failure carries the index of the refused item, whereas Python's NotImplementedError carries none.
- PythonInt: `int` also accepts non-ASCII Unicode decimal digits. The model accepts ASCII digits only.
- PythonInt: the digit limit is the default, 4300. Changing it with `sys.set_int_max_str_digits` or `PYTHONINTMAXSTRDIGITS` (0 turns it off) is not modelled.
- PythonInt: no token produced by the lexer can contain `_`, so `ParseIntGroups` applies only to items given to `enrich` or `Number.get_value` from elsewhere.
- ClassifyChar: the character is a single `char`. Python also accepts longer strings, which are in no set and give `None`.
- ShuntingYard.Token: `value` is a string or `None`. Python allows any object there.
- The commented-out tests and the commented-out decimal-point class are not modelled.
