/**
  The lexer of `tokenizer.py`: every input character is classified by the
  `TOKEN_TYPES` table, a run of characters of one token type becomes one
  token, whitespace runs are dropped when the next run begins, and whatever
  is pending at the end is yielded unconditionally.
*/
module Tokenizer {
  import opened Wrappers

  /** The values of `TOKEN_TYPES`. */
  datatype TokenType = Paren | Operator | Number | Function | Whitespace

  /** The sets of `CHAR_TYPES`. */
  const ParenChars: set<char> := {'(', ')'}
  const OperatorChars: set<char> := {'+', '-', '*', '/', '^'}
  /** The ten ASCII digits `0123456789`. */
  const DigitChars: set<char> := set c: char | '0' <= c <= '9'
  /** The 26 lower-case ASCII letters `abcdefghijklmnopqrstuvwxyz`. */
  const LetterChars: set<char> := set c: char | 'a' <= c <= 'z'
  const WhitespaceChars: set<char> := {' ', '\t', '\n'}

  /** The `CHAR_TYPES` set each token type is built from ("digit" gives "number", "letter" gives "function"). */
  function CharsOf(t: TokenType): set<char> {
    match t
    case Paren => ParenChars
    case Operator => OperatorChars
    case Number => DigitChars
    case Function => LetterChars
    case Whitespace => WhitespaceChars
  }

  /**
    `TOKEN_TYPES.get(c)`. The table merges one dict comprehension per
    character set, later ones overriding earlier ones, so the sets are
    consulted here from the last to the first.
  */
  function TokenTypeOf(c: char): Option<TokenType> {
    if c == ' ' || c == '\t' || c == '\n' then Some(Whitespace)
    else if 'a' <= c <= 'z' then Some(Function)
    else if '0' <= c <= '9' then Some(Number)
    else if c == '+' || c == '-' || c == '*' || c == '/' || c == '^' then Some(Operator)
    else if c == '(' || c == ')' then Some(Paren)
    else None
  }

  /**
    The character sets are pairwise disjoint, so the order of the merge does
    not matter: a character has a token type exactly when it is in that
    type's set.
  */
  lemma TokenTypesTable(c: char, t: TokenType)
    ensures TokenTypeOf(c) == Some(t) <==> c in CharsOf(t)
  {
  }

  /**
    Characters outside every set are unknown to the lexer: among them the
    comma, the decimal point, upper-case letters, the division and
    multiplication signs and the letter pi.
  */
  lemma UnknownCharacters(c: char)
    requires 'A' <= c <= 'Z' || c in {',', '.', '\U{F7}', '\U{D7}', '\U{3C0}', '%', '[', '\r'}
    ensures TokenTypeOf(c) == None
  {
  }

  /** The token type of a character is Whitespace exactly for the lexer's whitespace. */
  lemma WhitespaceType(c: char)
    ensures TokenTypeOf(c) == Some(Whitespace) <==> c in WhitespaceChars
  {
  }

  /** Every character of `s` is a key of `TOKEN_TYPES`. */
  predicate AllKnown(s: string) {
    forall i :: 0 <= i < |s| ==> TokenTypeOf(s[i]).Some?
  }

  function Last<T>(s: seq<T>): T
    requires s != []
  {
    s[|s| - 1]
  }

  function AllButLast<T>(s: seq<T>): seq<T>
    requires s != []
  {
    s[..|s| - 1]
  }

  /** `e` reports the first character of `s` that is not a key of `TOKEN_TYPES`. */
  predicate IsFirstUnknown(s: string, e: LexError) {
    && e.pos < |s|
    && e.c == s[e.pos]
    && TokenTypeOf(s[e.pos]).None?
    && forall j :: 0 <= j < e.pos ==> TokenTypeOf(s[j]).Some?
  }

  /** The token type of a (non-empty) run: that of its first character. */
  function RunType(r: string): Option<TokenType>
    requires r != []
  {
    TokenTypeOf(r[0])
  }

  /**
    The maximal runs of characters of one token type, left to right: the
    last character extends the last run of the rest when their types agree,
    and starts a new run otherwise.
  */
  function Runs(s: string): (rs: seq<string>)
    ensures |rs| == 0 <==> |s| == 0
    ensures forall i :: 0 <= i < |rs| ==> rs[i] != []
    ensures |s| > 0 ==> RunType(Last(rs)) == TokenTypeOf(Last(s))
    decreases |s|
  {
    if s == [] then []
    else
      var p, c := AllButLast(s), Last(s);
      var rs := Runs(p);
      if p != [] && TokenTypeOf(Last(p)) == TokenTypeOf(c) then AllButLast(rs) + [Last(rs) + [c]]
      else rs + [[c]]
  }

  lemma SnocParts<T>(s: seq<T>, x: T)
    ensures AllButLast(s + [x]) == s && Last(s + [x]) == x
  {
  }

  lemma Unsnoc<T>(s: seq<T>)
    requires s != []
    ensures s == AllButLast(s) + [Last(s)]
  {
  }

  lemma SnocAppend<T>(a: seq<T>, b: seq<T>)
    requires b != []
    ensures AllButLast(a + b) == a + AllButLast(b) && Last(a + b) == Last(b)
  {
  }

  lemma AppendAssoc<T>(x: seq<T>, y: seq<T>, z: seq<T>)
    ensures (x + y) + z == x + (y + z)
  {
  }

  /** One more character either extends the last run or starts a new one. */
  lemma RunsSnoc(p: string, c: char)
    ensures Runs(p + [c]) ==
      if p != [] && TokenTypeOf(Last(p)) == TokenTypeOf(c) then AllButLast(Runs(p)) + [Last(Runs(p)) + [c]]
      else Runs(p) + [[c]]
  {
    SnocParts(p, c);
  }

  /** The concatenation of a sequence of strings. */
  function Concat(rs: seq<string>): string {
    if rs == [] then [] else Concat(AllButLast(rs)) + Last(rs)
  }

  predicate IsWhitespaceRun(r: string) {
    r != [] && RunType(r) == Some(Whitespace)
  }

  /** The runs a class change yields: all but the whitespace runs, in order. */
  function Emitted(rs: seq<string>): (e: seq<Option<string>>)
    ensures |e| <= |rs|
    ensures forall i :: 0 <= i < |e| ==> e[i].Some? && !IsWhitespaceRun(e[i].value)
  {
    if rs == [] then []
    else Emitted(AllButLast(rs)) + (if IsWhitespaceRun(Last(rs)) then [] else [Some(Last(rs))])
  }

  lemma EmittedSingle(r: string)
    ensures Emitted([r]) == if IsWhitespaceRun(r) then [] else [Some(r)]
  {
    assert AllButLast([r]) == [];
  }

  lemma EmittedSnoc(rs: seq<string>, r: string)
    ensures Emitted(rs + [r]) == Emitted(rs) + (if IsWhitespaceRun(r) then [] else [Some(r)])
  {
    SnocParts(rs, r);
  }

  /**
    What `tokenize` yields on an input it accepts: the emitted runs before
    the last one, then the last run whatever its type; `None` alone for the
    empty input.
  */
  function Tokens(s: string): (ts: seq<Option<string>>)
    ensures ts != [] && (Last(ts) == None <==> s == [])
    ensures forall i :: 0 <= i < |ts| - 1 ==> ts[i].Some? && !IsWhitespaceRun(ts[i].value)
    ensures s != [] ==> Last(ts) == Some(Last(Runs(s)))
  {
    if s == [] then [None]
    else
      var rs := Runs(s);
      Emitted(AllButLast(rs)) + [Some(Last(rs))]
  }

  /** The lexer's failure: the unrecognized character and its position. */
  datatype LexError = Unrecognized(c: char, pos: nat)

  /**
    `tokenize(input)`, collected into a list. An unknown character fails the
    whole call; the first one is reported.
  */
  method Tokenize(input: string) returns (r: Result<seq<Option<string>>, LexError>)
    ensures AllKnown(input) ==> r == Success(Tokens(input))
    ensures !AllKnown(input) ==> r.Failure? && IsFirstUnknown(input, r.error)
  {
    var token: Option<string> := None;
    var tokenType: Option<TokenType> := None;
    var out: seq<Option<string>> := [];
    for i := 0 to |input|
      invariant forall j :: 0 <= j < i ==> TokenTypeOf(input[j]).Some?
      invariant Pending(input[..i], token, tokenType, out)
    {
      var c := input[i];
      var lookup := TokenTypeOf(c);
      if lookup.None? {
        assert !AllKnown(input);
        return Failure(Unrecognized(c, i));
      }
      token, tokenType, out := Step(input, i, token, tokenType, out);
    }
    assert AllKnown(input);
    PendingDone(input, token, tokenType, out);
    r := Success(out + [token]);
  }

  /**
    One iteration of the loop of `tokenize` on a known character `c` after
    the prefix `p`: a change of token type yields the pending token unless
    it is whitespace and starts a new one; the same type extends it.
  */
  method Step(s: string, i: nat, token: Option<string>, tokenType: Option<TokenType>, out: seq<Option<string>>)
    returns (token': Option<string>, tokenType': Option<TokenType>, out': seq<Option<string>>)
    requires i < |s| && TokenTypeOf(s[i]).Some?
    requires Pending(s[..i], token, tokenType, out)
    ensures Pending(s[..i + 1], token', tokenType', out')
  {
    ghost var p := s[..i];
    var c := s[i];
    assert s[..i + 1] == p + [c];
    var charType := TokenTypeOf(c).value;
    if Some(charType) != tokenType {
      NewRunStep(p, c, token, tokenType, out);
      out' := out;
      if token.Some? && tokenType != Some(Whitespace) {
        out' := out + [token];
      }
      token' := Some([c]);
      tokenType' := Some(charType);
    } else {
      ExtendStep(p, c, token, tokenType, out);
      token' := Some(token.value + [c]);
      tokenType' := tokenType;
      out' := out;
    }
  }

  /**
    The loop state of `tokenize` after the prefix `p`: nothing pending for
    the empty prefix; otherwise the last run of `p` is pending with its
    type, and the runs before it have been yielded unless whitespace.
  */
  ghost predicate Pending(p: string, token: Option<string>, tokenType: Option<TokenType>, out: seq<Option<string>>) {
    if p == [] then token == None && tokenType == None && out == []
    else
      var rs := Runs(p);
      && tokenType == TokenTypeOf(Last(p))
      && token == Some(Last(rs))
      && out == Emitted(AllButLast(rs))
  }

  /** A character of another type than the pending token's closes it and starts a new run. */
  lemma NewRunStep(p: string, c: char, token: Option<string>, tokenType: Option<TokenType>, out: seq<Option<string>>)
    requires Pending(p, token, tokenType, out)
    requires TokenTypeOf(c).Some? && TokenTypeOf(c) != tokenType
    ensures Pending(p + [c], Some([c]), TokenTypeOf(c),
                    if token.Some? && tokenType != Some(Whitespace) then out + [token] else out)
  {
    SnocParts(p, c);
    RunsSnoc(p, c);
    var rs := Runs(p);
    SnocParts(rs, [c]);
    if p != [] {
      Unsnoc(rs);
      EmittedSnoc(AllButLast(rs), Last(rs));
    }
  }

  /** A character of the pending token's type extends it. */
  lemma ExtendStep(p: string, c: char, token: Option<string>, tokenType: Option<TokenType>, out: seq<Option<string>>)
    requires Pending(p, token, tokenType, out)
    requires TokenTypeOf(c).Some? && TokenTypeOf(c) == tokenType
    ensures token.Some? && Pending(p + [c], Some(token.value + [c]), tokenType, out)
  {
    SnocParts(p, c);
    RunsSnoc(p, c);
    var rs := Runs(p);
    SnocParts(AllButLast(rs), Last(rs) + [c]);
  }

  /** At the end of the input the pending token is yielded last, whatever its type. */
  lemma PendingDone(s: string, token: Option<string>, tokenType: Option<TokenType>, out: seq<Option<string>>)
    requires Pending(s[..|s|], token, tokenType, out)
    ensures out + [token] == Tokens(s)
  {
    assert s[..|s|] == s;
  }

  // The runs, characterised independently of how they are computed.

  /** A non-empty string whose characters all have the token type of the first. */
  predicate Uniform(r: string) {
    r != [] && forall k :: 0 <= k < |r| ==> TokenTypeOf(r[k]) == TokenTypeOf(r[0])
  }

  /**
    `rs` cuts `s` into uniform pieces, neighbours of different token types:
    the maximal runs of `s`.
  */
  ghost predicate IsRunSplit(s: string, rs: seq<string>) {
    && Concat(rs) == s
    && (forall i :: 0 <= i < |rs| ==> Uniform(rs[i]))
    && (forall i, j :: 0 <= i < j < |rs| && j == i + 1 ==> RunType(rs[i]) != RunType(rs[j]))
  }

  lemma ConcatSnoc(rs: seq<string>, r: string)
    ensures Concat(rs + [r]) == Concat(rs) + r
  {
    SnocParts(rs, r);
  }

  lemma {:induction false} ConcatLast(rs: seq<string>)
    requires rs != [] && Last(rs) != []
    ensures Concat(rs) != [] && Last(Concat(rs)) == Last(Last(rs))
  {
  }

  /** A character of another type than the last run's, appended, is a run of its own. */
  lemma SplitNewRun(p: string, rs: seq<string>, c: char)
    requires IsRunSplit(p, rs)
    requires rs != [] ==> RunType(Last(rs)) != TokenTypeOf(c)
    ensures IsRunSplit(p + [c], rs + [[c]])
  {
    var rs' := rs + [[c]];
    ConcatSnoc(rs, [c]);
    assert forall i :: 0 <= i < |rs| ==> rs'[i] == rs[i];
  }

  /** A character of the last run's type, appended, extends that run. */
  lemma SplitExtend(p: string, rs: seq<string>, c: char)
    requires IsRunSplit(p, rs)
    requires rs != [] && RunType(Last(rs)) == TokenTypeOf(c)
    ensures IsRunSplit(p + [c], AllButLast(rs) + [Last(rs) + [c]])
  {
    var q, l := AllButLast(rs), Last(rs);
    var rs' := q + [l + [c]];
    Unsnoc(rs);
    ConcatSnoc(q, l);
    ConcatSnoc(q, l + [c]);
    assert Uniform(l);
    assert Uniform(l + [c]);
    assert forall i :: 0 <= i < |q| ==> rs'[i] == rs[i];
  }

  /** `Runs` splits its input into its maximal runs. */
  lemma {:induction false} RunsSplit(s: string)
    ensures IsRunSplit(s, Runs(s))
    decreases |s|
  {
    if s != [] {
      var p, c := AllButLast(s), Last(s);
      Unsnoc(s);
      RunsSnoc(p, c);
      RunsSplit(p);
      if p != [] && TokenTypeOf(Last(p)) == TokenTypeOf(c) {
        SplitExtend(p, Runs(p), c);
      } else {
        SplitNewRun(p, Runs(p), c);
      }
    }
  }

  /**
    Removing the last character from a split whose last run is that single
    character leaves a split of the rest, whose last character (if any) has
    another type.
  */
  lemma SplitDropRun(s: string, rs: seq<string>)
    requires IsRunSplit(s, rs) && rs != [] && |Last(rs)| == 1
    ensures s != [] && Last(rs) == [Last(s)]
    ensures IsRunSplit(AllButLast(s), AllButLast(rs))
    ensures AllButLast(s) != [] ==> TokenTypeOf(Last(AllButLast(s))) != TokenTypeOf(Last(s))
  {
    var q, r := AllButLast(rs), Last(rs);
    assert rs == q + [r];
    ConcatSnoc(q, r);
    if q != [] {
      assert Uniform(r) && Uniform(Last(q));
      ConcatLast(q);
      assert RunType(rs[|q| - 1]) != RunType(rs[|q|]);
    }
  }

  /**
    Removing the last character from a split whose last run is longer
    leaves a split of the rest, with that run shortened, whose last
    character has the same type.
  */
  lemma SplitShortenRun(s: string, rs: seq<string>)
    requires IsRunSplit(s, rs) && rs != [] && |Last(rs)| > 1
    ensures s != [] && Last(rs) == AllButLast(Last(rs)) + [Last(s)]
    ensures IsRunSplit(AllButLast(s), AllButLast(rs) + [AllButLast(Last(rs))])
    ensures AllButLast(s) != [] && TokenTypeOf(Last(AllButLast(s))) == TokenTypeOf(Last(s))
  {
    var q, r := AllButLast(rs), Last(rs);
    var r' := AllButLast(r);
    var q' := q + [r'];
    assert rs == q + [r];
    ConcatSnoc(q, r);
    ConcatSnoc(q, r');
    assert Uniform(r);
    assert r == r' + [Last(r)];
    assert Concat(rs) == Concat(q') + [Last(r)];
    assert Uniform(r');
    ConcatLast(q');
  }

  /** `Runs` of a string one character longer, given the runs of the shorter one. */
  lemma RunsAfter(p: string, c: char, q: seq<string>)
    requires Runs(p) == q
    ensures p != [] && TokenTypeOf(Last(p)) == TokenTypeOf(c) ==> Runs(p + [c]) == AllButLast(q) + [Last(q) + [c]]
    ensures !(p != [] && TokenTypeOf(Last(p)) == TokenTypeOf(c)) ==> Runs(p + [c]) == q + [[c]]
  {
    RunsSnoc(p, c);
  }

  /** A split into maximal runs is unique: it is the one `Runs` computes. */
  lemma {:induction false} RunSplitUnique(s: string, rs: seq<string>)
    requires IsRunSplit(s, rs)
    ensures rs == Runs(s)
    decreases |s|
  {
    if rs != [] {
      var q, r := AllButLast(rs), Last(rs);
      Unsnoc(rs);
      if |r| == 1 {
        SplitDropRun(s, rs);
        var p, c := AllButLast(s), Last(s);
        RunSplitUnique(p, q);
        Unsnoc(s);
        RunsAfter(p, c, q);
      } else {
        SplitShortenRun(s, rs);
        var p, c := AllButLast(s), Last(s);
        var r' := AllButLast(r);
        RunSplitUnique(p, q + [r']);
        Unsnoc(s);
        RunsAfter(p, c, q + [r']);
        SnocParts(q, r');
      }
    }
  }

  // What the tokens spell.

  /** The text of a token sequence: its strings concatenated, `None` contributing nothing. */
  function Joined(ts: seq<Option<string>>): string {
    if ts == [] then []
    else Joined(AllButLast(ts)) + (match Last(ts) case None => [] case Some(t) => t)
  }

  /** `s` without the characters of token type Whitespace. */
  function DropWhitespace(s: string): (d: string)
    ensures |d| <= |s|
  {
    if s == [] then []
    else DropWhitespace(AllButLast(s)) + (if TokenTypeOf(Last(s)) == Some(Whitespace) then [] else [Last(s)])
  }

  lemma {:induction false} JoinedAppend(a: seq<Option<string>>, b: seq<Option<string>>)
    ensures Joined(a + b) == Joined(a) + Joined(b)
    decreases |b|
  {
    if b != [] {
      Unsnoc(b);
      var b', t := AllButLast(b), Last(b);
      assert a + b == (a + b') + [t];
      SnocParts(a + b', t);
      JoinedAppend(a, b');
    } else {
      assert a + b == a;
    }
  }

  lemma {:induction false} DropAppend(a: string, b: string)
    ensures DropWhitespace(a + b) == DropWhitespace(a) + DropWhitespace(b)
    decreases |b|
  {
    if b != [] {
      Unsnoc(b);
      var b', c := AllButLast(b), Last(b);
      assert a + b == (a + b') + [c];
      SnocParts(a + b', c);
      DropAppend(a, b');
    } else {
      assert a + b == a;
    }
  }

  /** A run loses all its characters or none. */
  lemma {:induction false} DropUniform(r: string)
    requires Uniform(r)
    ensures DropWhitespace(r) == if IsWhitespaceRun(r) then [] else r
    decreases |r|
  {
    if |r| > 1 {
      Unsnoc(r);
      var r' := AllButLast(r);
      assert Uniform(r') && r'[0] == r[0];
      DropUniform(r');
    }
  }

  /** The runs a class change yields spell their runs without the whitespace. */
  lemma {:induction false} EmittedText(rs: seq<string>)
    requires forall i :: 0 <= i < |rs| ==> Uniform(rs[i])
    ensures Joined(Emitted(rs)) == DropWhitespace(Concat(rs))
    decreases |rs|
  {
    if rs != [] {
      var q, r := AllButLast(rs), Last(rs);
      Unsnoc(rs);
      assert Uniform(r);
      EmittedText(q);
      EmittedSnoc(q, r);
      ConcatSnoc(q, r);
      JoinedAppend(Emitted(q), if IsWhitespaceRun(r) then [] else [Some(r)]);
      DropAppend(Concat(q), r);
      DropUniform(r);
      assert Joined([Some(r)]) == r by {
        assert AllButLast([Some(r)]) == [];
      }
    }
  }

  /** The runs of a non-empty string: uniform pieces, the last one after the others. */
  lemma RunsPieces(s: string)
    requires s != []
    ensures Concat(AllButLast(Runs(s))) + Last(Runs(s)) == s
    ensures forall i :: 0 <= i < |Runs(s)| - 1 ==> Uniform(Runs(s)[i])
    ensures Uniform(Last(Runs(s)))
  {
    var rs := Runs(s);
    RunsSplit(s);
    Unsnoc(rs);
    ConcatSnoc(AllButLast(rs), Last(rs));
  }

  lemma JoinedLast(ts: seq<Option<string>>, t: string)
    ensures Joined(ts + [Some(t)]) == Joined(ts) + t
  {
    SnocParts(ts, Some(t));
  }

  /** The tokens spell the runs before the last without whitespace, then the last run. */
  lemma TokensJoined(s: string)
    requires s != []
    ensures Joined(Tokens(s)) == DropWhitespace(Concat(AllButLast(Runs(s)))) + Last(Runs(s))
  {
    var rs := Runs(s);
    var q := AllButLast(rs);
    RunsPieces(s);
    assert forall i :: 0 <= i < |q| ==> Uniform(q[i]) by {
      assert forall i :: 0 <= i < |q| ==> q[i] == rs[i];
    }
    EmittedText(q);
    JoinedLast(Emitted(q), Last(rs));
  }

  /** Dropping the whitespace of a string drops it run by run. */
  lemma DropRuns(s: string)
    requires s != []
    ensures DropWhitespace(s) == DropWhitespace(Concat(AllButLast(Runs(s)))) + if IsWhitespaceRun(Last(Runs(s))) then [] else Last(Runs(s))
  {
    var r := Last(Runs(s));
    RunsPieces(s);
    DropAppend(Concat(AllButLast(Runs(s))), r);
    DropUniform(r);
  }

  /**
    The tokens spell the input without its whitespace, except that a
    trailing whitespace run is kept as the last token.
  */
  lemma TokensText(s: string)
    requires s != []
    ensures Joined(Tokens(s)) == DropWhitespace(s) + (if TokenTypeOf(Last(s)) == Some(Whitespace) then Last(Runs(s)) else [])
  {
    var rs := Runs(s);
    var r := Last(rs);
    var d := DropWhitespace(Concat(AllButLast(rs)));
    assert r != [] && RunType(r) == TokenTypeOf(Last(s));
    TokensJoined(s);
    DropRuns(s);
    if IsWhitespaceRun(r) {
      assert DropWhitespace(s) == d + [] == d;
      assert Joined(Tokens(s)) == DropWhitespace(s) + r;
    } else {
      assert DropWhitespace(s) == d + r;
      assert Joined(Tokens(s)) == DropWhitespace(s) == DropWhitespace(s) + [];
    }
  }

  // Runs and tokens of concatenations, and the examples of the test suite.

  /**
    When the input does not end in whitespace, the tokens spell exactly the
    input with its whitespace removed, in order.
  */
  lemma TokensTextNoTrailingSpace(s: string)
    requires s != [] && TokenTypeOf(Last(s)) != Some(Whitespace)
    ensures Joined(Tokens(s)) == DropWhitespace(s)
  {
    TokensText(s);
    assert DropWhitespace(s) + [] == DropWhitespace(s);
  }

  lemma {:induction false} ConcatAppend(a: seq<string>, b: seq<string>)
    ensures Concat(a + b) == Concat(a) + Concat(b)
    decreases |b|
  {
    if b == [] {
      assert a + b == a;
    } else {
      var b', r := AllButLast(b), Last(b);
      Unsnoc(b);
      assert a + b == (a + b') + [r];
      ConcatSnoc(a + b', r);
      ConcatSnoc(b', r);
      ConcatAppend(a, b');
    }
  }

  lemma {:induction false} ConcatFirst(rs: seq<string>)
    requires rs != [] && rs[0] != []
    ensures Concat(rs) != [] && Concat(rs)[0] == rs[0][0]
    decreases |rs|
  {
    var q, r := AllButLast(rs), Last(rs);
    Unsnoc(rs);
    ConcatSnoc(q, r);
    if q != [] {
      ConcatFirst(q);
    } else {
      assert Concat(q) == [];
    }
  }

  lemma {:induction false} EmittedAppend(a: seq<string>, b: seq<string>)
    ensures Emitted(a + b) == Emitted(a) + Emitted(b)
    decreases |b|
  {
    if b == [] {
      assert a + b == a;
    } else {
      var b', r := AllButLast(b), Last(b);
      Unsnoc(b);
      assert a + b == (a + b') + [r];
      EmittedSnoc(a + b', r);
      EmittedSnoc(b', r);
      EmittedAppend(a, b');
    }
  }

  lemma UniformLast(r: string)
    requires Uniform(r)
    ensures TokenTypeOf(Last(r)) == RunType(r)
  {
  }

  /** A uniform string is a single run. */
  lemma RunsUniform(r: string)
    requires Uniform(r)
    ensures Runs(r) == [r]
  {
    assert Concat([r]) == r by {
      ConcatSnoc([], r);
    }
    RunSplitUnique(r, [r]);
  }

  lemma SplitAppendUniform(a: seq<string>, b: seq<string>)
    requires forall i :: 0 <= i < |a| ==> Uniform(a[i])
    requires forall i :: 0 <= i < |b| ==> Uniform(b[i])
    ensures forall i :: 0 <= i < |a + b| ==> Uniform((a + b)[i])
  {
  }

  lemma SplitAppendAdjacent(a: seq<string>, b: seq<string>)
    requires forall i :: 0 <= i < |a| ==> a[i] != []
    requires forall i :: 0 <= i < |b| ==> b[i] != []
    requires forall i, j :: 0 <= i < j < |a| && j == i + 1 ==> RunType(a[i]) != RunType(a[j])
    requires forall i, j :: 0 <= i < j < |b| && j == i + 1 ==> RunType(b[i]) != RunType(b[j])
    requires a != [] && b != [] ==> RunType(Last(a)) != RunType(b[0])
    ensures forall i, j :: 0 <= i < j < |a + b| && j == i + 1 ==> RunType((a + b)[i]) != RunType((a + b)[j])
  {
    var rs := a + b;
    forall i, j | 0 <= i < j < |rs| && j == i + 1
      ensures RunType(rs[i]) != RunType(rs[j])
    {
      if j < |a| {
        assert rs[i] == a[i] && rs[j] == a[j];
      } else if i >= |a| {
        assert rs[i] == b[i - |a|] && rs[j] == b[j - |a|];
      } else {
        assert rs[i] == Last(a) && rs[j] == b[0];
      }
    }
  }

  /** Two splits that meet at a change of token type make a split of the concatenation. */
  lemma SplitAppend(x: string, a: seq<string>, y: string, b: seq<string>)
    requires IsRunSplit(x, a) && IsRunSplit(y, b)
    requires a != [] && b != [] ==> RunType(Last(a)) != RunType(b[0])
    ensures IsRunSplit(x + y, a + b)
  {
    ConcatAppend(a, b);
    SplitAppendUniform(a, b);
    SplitAppendAdjacent(a, b);
  }

  /** The runs of two strings that meet at a change of token type are the runs of each. */
  lemma RunsAppend(x: string, y: string)
    requires x != [] && y != []
    requires TokenTypeOf(Last(x)) != TokenTypeOf(y[0])
    ensures Runs(x + y) == Runs(x) + Runs(y)
  {
    RunsSplit(x);
    RunsSplit(y);
    ConcatFirst(Runs(y));
    SplitAppend(x, Runs(x), y, Runs(y));
    RunSplitUnique(x + y, Runs(x) + Runs(y));
  }

  /**
    Two strings that meet at a change of token type: the tokens of the
    first, but for its trailing whitespace run, come before those of the
    second.
  */
  lemma TokensAppend(x: string, y: string)
    requires x != [] && y != []
    requires TokenTypeOf(Last(x)) != TokenTypeOf(y[0])
    ensures Tokens(x + y) == Emitted(Runs(x)) + Tokens(y)
  {
    var a, b := Runs(x), Runs(y);
    RunsAppend(x, y);
    SnocAppend(a, b);
    EmittedAppend(a, AllButLast(b));
    AppendAssoc(Emitted(a), Emitted(AllButLast(b)), [Some(Last(b))]);
  }

  /** A run followed by a character of another type: its token, unless whitespace, comes first. */
  lemma TokensCons(r: string, y: string)
    requires Uniform(r) && y != []
    requires RunType(r) != TokenTypeOf(y[0])
    ensures Tokens(r + y) == (if IsWhitespaceRun(r) then [] else [Some(r)]) + Tokens(y)
  {
    UniformLast(r);
    RunsUniform(r);
    TokensAppend(r, y);
    EmittedSingle(r);
  }

  /** A uniform input is one token, even a whitespace one. */
  lemma TokensUniform(r: string)
    requires Uniform(r)
    ensures Tokens(r) == [Some(r)]
  {
    RunsUniform(r);
  }

  /** A run that is not whitespace, then tokens of another type: the run is the first token. */
  lemma TokensConsRun(r: string, y: string, ts: seq<Option<string>>)
    requires Uniform(r) && !IsWhitespaceRun(r) && y != []
    requires RunType(r) != TokenTypeOf(y[0])
    requires Tokens(y) == ts
    ensures Tokens(r + y) == [Some(r)] + ts
  {
    TokensCons(r, y);
  }

  /** A whitespace run before tokens of another type is dropped. */
  lemma TokensConsSpace(w: char, y: string)
    requires TokenTypeOf(w) == Some(Whitespace) && y != []
    requires TokenTypeOf(y[0]) != Some(Whitespace)
    ensures Tokens([w] + y) == Tokens(y)
  {
    assert Uniform([w]);
    TokensCons([w], y);
  }

  /** A right-nested list of six singletons is the six-element list. */
  lemma FlattenSix<T>(a: T, b: T, c: T, d: T, e: T, f: T)
    ensures [a] + ([b] + ([c] + ([d] + ([e] + [f])))) == [a, b, c, d, e, f]
  {
  }

  /**
    The shape of `302 + sin(400)`: a number, a spaced operator, a function
    name, then a parenthesised number. The spaces separate tokens and are
    dropped; everything else is a token of its own.
  */
  lemma TokensCallShape(n1: string, w: char, o: char, f: string, lp: char, n2: string, rp: char)
    requires Uniform(n1) && RunType(n1) == Some(Number)
    requires TokenTypeOf(w) == Some(Whitespace)
    requires TokenTypeOf(o) == Some(Operator)
    requires Uniform(f) && RunType(f) == Some(Function)
    requires TokenTypeOf(lp) == Some(Paren) && TokenTypeOf(rp) == Some(Paren)
    requires Uniform(n2) && RunType(n2) == Some(Number)
    ensures Tokens(n1 + ([w] + ([o] + ([w] + (f + ([lp] + (n2 + [rp]))))))) ==
            [Some(n1), Some([o]), Some(f), Some([lp]), Some(n2), Some([rp])]
  {
    var y6 := n2 + [rp];
    var y5 := [lp] + y6;
    var y4 := f + y5;
    var y3 := [w] + y4;
    var y2 := [o] + y3;
    var y1 := [w] + y2;
    var t6 := [Some(n2)] + [Some([rp])];
    var t5 := [Some([lp])] + t6;
    var t4 := [Some(f)] + t5;
    var t2 := [Some([o])] + t4;
    assert Uniform([rp]) && Uniform([lp]) && Uniform([o]);
    TokensUniform([rp]);
    TokensConsRun(n2, [rp], [Some([rp])]);
    TokensConsRun([lp], y6, t6);
    TokensConsRun(f, y5, t5);
    TokensConsSpace(w, y4);
    TokensConsRun([o], y3, t4);
    TokensConsSpace(w, y2);
    TokensConsRun(n1, y1, t2);
    FlattenSix(Some(n1), Some([o]), Some(f), Some([lp]), Some(n2), Some([rp]));
  }

  /** Two runs of different types, the first not whitespace, are two tokens. */
  lemma TokensTwoRuns(x: string, y: string)
    requires Uniform(x) && !IsWhitespaceRun(x) && Uniform(y)
    requires RunType(x) != RunType(y)
    ensures Tokens(x + y) == [Some(x), Some(y)]
  {
    TokensUniform(y);
    TokensConsRun(x, y, [Some(y)]);
  }

  /** `tokenize("3+4")` yields `3`, `+`, `4`. */
  lemma TokensExampleSum()
    ensures Tokens("3+4") == [Some("3"), Some("+"), Some("4")]
  {
    var s := "3" + ("+" + "4");
    assert Tokens(s) == [Some("3"), Some("+"), Some("4")] by {
      assert Uniform("3") && Uniform("+") && Uniform("4");
      TokensTwoRuns("+", "4");
      TokensConsRun("3", "+" + "4", [Some("+"), Some("4")]);
    }
    assert s == "3+4";
  }

  lemma TokensCallPieces()
    ensures Tokens("302" + (" " + ("+" + (" " + ("sin" + ("(" + ("400" + ")"))))))) ==
            [Some("302"), Some("+"), Some("sin"), Some("("), Some("400"), Some(")")]
  {
    assert Uniform("302") && Uniform("sin") && Uniform("400");
    TokensCallShape("302", ' ', '+', "sin", '(', "400", ')');
  }

  /** `tokenize("302 + sin(400)")` yields `302`, `+`, `sin`, `(`, `400`, `)`. */
  lemma TokensExampleCall()
    ensures Tokens("302 + sin(400)") == [Some("302"), Some("+"), Some("sin"), Some("("), Some("400"), Some(")")]
  {
    TokensCallPieces();
    assert "302" + (" " + ("+" + (" " + ("sin" + ("(" + ("400" + ")")))))) == "302 + sin(400)";
  }

  /** Operators are not separated from each other: `--5` is the two tokens `--` and `5`. */
  lemma TokensDoubleMinus()
    ensures Tokens("--5") == [Some("--"), Some("5")]
  {
    assert Tokens("--" + "5") == [Some("--"), Some("5")] by {
      assert Uniform("--") && Uniform("5");
      TokensTwoRuns("--", "5");
    }
    assert "--" + "5" == "--5";
  }

  /** Neither are parentheses: `((` is a single token. */
  lemma TokensDoubleParen()
    ensures Tokens("((") == [Some("((")]
  {
    assert Uniform("((");
    TokensUniform("((");
  }

  /** Leading whitespace is dropped. */
  lemma TokensLeadingSpace()
    ensures Tokens(" 3") == [Some("3")]
  {
    assert Tokens(" " + "3") == [Some("3")] by {
      assert Uniform("3");
      TokensUniform("3");
      TokensConsSpace(' ', "3");
    }
    assert " " + "3" == " 3";
  }

  /** Trailing whitespace is yielded as the last token. */
  lemma TokensTrailingSpace()
    ensures Tokens("3 ") == [Some("3"), Some(" ")]
  {
    assert Tokens("3" + " ") == [Some("3"), Some(" ")] by {
      assert Uniform("3") && Uniform(" ");
      TokensTwoRuns("3", " ");
    }
    assert "3" + " " == "3 ";
  }

  /** The empty input yields a single `None`. */
  lemma TokensEmpty()
    ensures Tokens("") == [None]
  {
  }
}
