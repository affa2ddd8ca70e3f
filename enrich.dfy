/**
  `enrich` from `tokenizer.py`: every token `tokenize` yields is converted
  with Python's `int`; the first one `int` refuses (it raises ValueError, or TypeError for
  the `None` an empty input yields) makes the bare `except` raise
  NotImplementedError instead.
*/
module Enrichment {
  import opened Wrappers
  import opened PythonInt
  import opened Tokenizer

  /** NotImplementedError, raised while converting the item at `index`. */
  datatype EnrichError = NotImplemented(index: nat)

  /** `int(item)`: `None` when Python raises, the value otherwise. */
  function IntOf(item: Option<string>): Option<int> {
    match item
    case None => None
    case Some(t) => ParseInt(t)
  }

  /**
    The loop of `enrich` over the converted items: the values, in order, or
    the failure at the first item that has none.
  */
  function Collect(xs: seq<Option<int>>): (r: Result<seq<int>, EnrichError>)
    ensures r.Success? ==> |r.value| == |xs| && forall i :: 0 <= i < |xs| ==> xs[i] == Some(r.value[i])
    ensures r.Failure? ==>
      && r.error.index < |xs|
      && xs[r.error.index].None?
      && forall j :: 0 <= j < r.error.index ==> xs[j].Some?
  {
    if xs == [] then Success([])
    else
      match Collect(AllButLast(xs))
      case Failure(e) => Failure(e)
      case Success(vs) =>
        match Last(xs)
        case None => Failure(NotImplemented(|xs| - 1))
        case Some(n) => Success(vs + [n])
  }

  /**
    `list(enrich(items))`: the integer value of every item, in order, or the
    failure at the first item `int` does not accept.
  */
  function Enrich(items: seq<Option<string>>): (r: Result<seq<int>, EnrichError>)
    ensures r.Success? ==> |r.value| == |items| && forall i :: 0 <= i < |items| ==> IntOf(items[i]) == Some(r.value[i])
    ensures r.Failure? ==>
      && r.error.index < |items|
      && IntOf(items[r.error.index]).None?
      && forall j :: 0 <= j < r.error.index ==> IntOf(items[j]).Some?
  {
    var xs := seq(|items|, i requires 0 <= i < |items| => IntOf(items[i]));
    assert forall i :: 0 <= i < |items| ==> xs[i] == IntOf(items[i]);
    Collect(xs)
  }

  /** `enrich` succeeds exactly when every item is an integer. */
  lemma EnrichSucceeds(items: seq<Option<string>>)
    ensures Enrich(items).Success? <==> forall i :: 0 <= i < |items| ==> IntOf(items[i]).Some?
  {
  }

  /** A non-empty run of characters of the token type Number: a run of digits. */
  predicate IsNumberRun(t: string) {
    t != [] && RunType(t) == Some(Number)
  }

  /**
    The value of a single token: a number run of at most `MaxStrDigits`
    digits is converted to its decimal value, a longer one is refused; a run
    of operators, letters, parentheses or whitespace is refused.
  */
  lemma RunIntValue(t: string)
    requires Uniform(t)
    ensures IsNumberRun(t) ==> AllDigits(t) && IntOf(Some(t)) == if |t| <= MaxStrDigits then Some(DecimalValue(t)) else None
    ensures !IsNumberRun(t) ==> IntOf(Some(t)) == None
  {
    if IsNumberRun(t) {
      assert forall k :: 0 <= k < |t| ==> TokenTypeOf(t[k]) == Some(Number);
      ParseIntDigits(t);
    } else {
      assert forall k :: 0 <= k < |t| ==> TokenTypeOf(t[k]) == TokenTypeOf(t[0]) != Some(Number);
      ParseIntNeedsDigit(t);
    }
  }

  /** The empty input's lone `None` is refused at once. */
  lemma EnrichNone()
    ensures Enrich([None]) == Failure(NotImplemented(0))
  {
  }

  lemma {:induction false} EmittedUniform(rs: seq<string>)
    requires forall i :: 0 <= i < |rs| ==> Uniform(rs[i])
    ensures forall i :: 0 <= i < |Emitted(rs)| ==> Uniform(Emitted(rs)[i].value)
  {
    if rs != [] {
      var p := AllButLast(rs);
      assert forall i :: 0 <= i < |p| ==> Uniform(p[i]) by {
        assert forall i :: 0 <= i < |p| ==> p[i] == rs[i];
      }
      EmittedUniform(p);
    }
  }

  /** Every token of a non-empty input is one of its runs: present and uniform. */
  lemma TokensAreRuns(s: string)
    requires s != []
    ensures forall i :: 0 <= i < |Tokens(s)| ==> Tokens(s)[i].Some? && Uniform(Tokens(s)[i].value)
  {
    var rs := Runs(s);
    RunsSplit(s);
    var p := AllButLast(rs);
    assert forall i :: 0 <= i < |p| ==> Uniform(p[i]) by {
      assert forall i :: 0 <= i < |p| ==> p[i] == rs[i];
    }
    EmittedUniform(p);
  }

  /**
    Enriching the tokens of an input succeeds exactly when the input is not
    empty and every token is a number run of at most `MaxStrDigits` digits;
    the values are then the decimal values of the tokens, in order.
  */
  lemma EnrichTokens(s: string)
    ensures Enrich(Tokens(s)).Success? <==>
      s != [] && forall i :: 0 <= i < |Tokens(s)| ==>
        IsNumberRun(Tokens(s)[i].value) && |Tokens(s)[i].value| <= MaxStrDigits
    ensures Enrich(Tokens(s)).Success? ==>
      forall i :: 0 <= i < |Tokens(s)| ==>
        AllDigits(Tokens(s)[i].value) && Enrich(Tokens(s)).value[i] == DecimalValue(Tokens(s)[i].value)
  {
    var ts := Tokens(s);
    EnrichSucceeds(ts);
    if s == [] {
      assert IntOf(ts[0]).None?;
    } else {
      TokensAreRuns(s);
      forall i | 0 <= i < |ts|
        ensures IsNumberRun(ts[i].value) ==>
          AllDigits(ts[i].value) && IntOf(ts[i]) == if |ts[i].value| <= MaxStrDigits then Some(DecimalValue(ts[i].value)) else None
        ensures !IsNumberRun(ts[i].value) ==> IntOf(ts[i]) == None
      {
        RunIntValue(ts[i].value);
      }
    }
  }

  /** The failure `Enrich` reports is determined: it is at the first item `int` refuses. */
  lemma EnrichFirstFailure(items: seq<Option<string>>, k: nat)
    requires k < |items| && IntOf(items[k]).None?
    requires forall j :: 0 <= j < k ==> IntOf(items[j]).Some?
    ensures Enrich(items) == Failure(NotImplemented(k))
  {
    var r := Enrich(items);
    assert r.Failure?;
    assert IntOf(items[r.error.index]).None?;
  }

  /** So is the success: the values `int` gives the items, in order. */
  lemma EnrichAllValues(items: seq<Option<string>>, vs: seq<int>)
    requires |vs| == |items|
    requires forall i :: 0 <= i < |items| ==> IntOf(items[i]) == Some(vs[i])
    ensures Enrich(items) == Success(vs)
  {
    EnrichSucceeds(items);
    var r := Enrich(items);
    assert r.value == vs;
  }

  /** A single item is converted, or refused at index 0. */
  lemma EnrichSingle(item: Option<string>)
    ensures Enrich([item]) == if IntOf(item).Some? then Success([IntOf(item).value]) else Failure(NotImplemented(0))
  {
    if IntOf(item).Some? {
      EnrichAllValues([item], [IntOf(item).value]);
    } else {
      EnrichFirstFailure([item], 0);
    }
  }

  /** A non-empty run of digits is a number run. */
  lemma DigitsRun(d: string)
    requires d != [] && AllDigits(d)
    ensures Uniform(d) && IsNumberRun(d)
  {
  }

  /**
    A numeral alone is enriched to its decimal value, unless it has more
    than `MaxStrDigits` digits and is refused.
  */
  lemma EnrichNumeral(d: string)
    requires d != [] && AllDigits(d)
    ensures Enrich(Tokens(d)) == if |d| <= MaxStrDigits then Success([DecimalValue(d)]) else Failure(NotImplemented(0))
  {
    DigitsRun(d);
    TokensUniform(d);
    ParseIntDigits(d);
    EnrichSingle(Some(d));
  }

  /**
    Leading zeros do not change what a numeral is enriched to, as long as
    the whole numeral stays within `MaxStrDigits` digits.
  */
  lemma EnrichLeadingZeros(z: string, d: string)
    requires forall i :: 0 <= i < |z| ==> z[i] == '0'
    requires d != [] && AllDigits(d)
    ensures |z + d| <= MaxStrDigits ==> Enrich(Tokens(z + d)) == Enrich(Tokens(d)) == Success([DecimalValue(d)])
    ensures |z + d| > MaxStrDigits ==> Enrich(Tokens(z + d)) == Failure(NotImplemented(0))
  {
    DecimalValueLeadingZeros(z, d);
    EnrichNumeral(z + d);
    EnrichNumeral(d);
  }

  /**
    A number, an operator and a number: the first number is converted and
    the operator refused, or the first number is already refused when it
    has more than `MaxStrDigits` digits.
  */
  lemma EnrichSumShape(x: string, o: char, y: string)
    requires x != [] && AllDigits(x) && y != [] && AllDigits(y)
    requires TokenTypeOf(o) == Some(Operator)
    ensures Enrich(Tokens(x + ([o] + y))) == Failure(NotImplemented(if |x| <= MaxStrDigits then 1 else 0))
  {
    DigitsRun(x);
    DigitsRun(y);
    assert Uniform([o]);
    TokensTwoRuns([o], y);
    TokensConsRun(x, [o] + y, [Some([o]), Some(y)]);
    var ts := [Some(x), Some([o]), Some(y)];
    assert Tokens(x + ([o] + y)) == ts;
    RunIntValue(x);
    if |x| <= MaxStrDigits {
      RunIntValue([o]);
      assert IntOf(ts[1]).None?;
      forall j | 0 <= j < 1
        ensures IntOf(ts[j]).Some?
      {
        assert ts[j] == Some(x);
      }
      EnrichFirstFailure(ts, 1);
    } else {
      assert IntOf(ts[0]).None?;
      EnrichFirstFailure(ts, 0);
    }
  }

  /** `enrich(tokenize("3+4"))` yields 3, then fails at the operator. */
  lemma EnrichExampleSum()
    ensures Enrich(Tokens("3+4")) == Failure(NotImplemented(1))
  {
    var s := "3" + ("+" + "4");
    assert Enrich(Tokens(s)) == Failure(NotImplemented(1)) by {
      EnrichSumShape("3", '+', "4");
    }
    assert s == "3+4";
  }
}
