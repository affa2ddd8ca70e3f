/**
  Python's `int(text)` on a string, base 10: the conversion `enrich` and
  `Number.get_value` apply to their tokens. Surrounding whitespace is
  stripped, one optional sign is accepted, and the digits may be grouped by
  single underscores (`"1_000"`); leading zeros are allowed (`"007"`). A
  numeral of more than 4300 digits, leading zeros included and underscores
  not, is refused: CPython's default limit on integer string conversion.
*/
module PythonInt {
  import opened Wrappers

  /**
    The characters `int` strips from both ends: the ASCII whitespace
    `\t\n\v\f\r` and space, and the non-ASCII characters of `str.isspace`.
    The ASCII separators U+001C to U+001F, although `str.isspace` holds for
    them, are kept, so `int` refuses a numeral they surround.
  */
  predicate IsSpace(c: char) {
    || '\t' <= c <= '\r'
    || c == ' '
    || c == '\U{85}'
    || c == '\U{A0}'
    || c == '\U{1680}'
    || '\U{2000}' <= c <= '\U{200A}'
    || c == '\U{2028}'
    || c == '\U{2029}'
    || c == '\U{202F}'
    || c == '\U{205F}'
    || c == '\U{3000}'
  }

  predicate IsDigit(c: char) {
    '0' <= c <= '9'
  }

  predicate AllDigits(s: string) {
    forall i :: 0 <= i < |s| ==> IsDigit(s[i])
  }

  function DigitValue(c: char): (d: nat)
    requires IsDigit(c)
    ensures d < 10
  {
    (c as int) - ('0' as int)
  }

  /** The value of a decimal numeral, most significant digit first. */
  function DecimalValue(ds: string): nat
    requires AllDigits(ds)
  {
    if ds == [] then 0 else 10 * DecimalValue(ds[..|ds| - 1]) + DigitValue(ds[|ds| - 1])
  }

  /** `s` without its leading whitespace. */
  function StripLeading(s: string): (t: string)
    ensures |t| <= |s| && t == s[|s| - |t|..]
    ensures t == [] || !IsSpace(t[0])
    ensures forall i :: 0 <= i < |s| - |t| ==> IsSpace(s[i])
  {
    if s != [] && IsSpace(s[0]) then StripLeading(s[1..]) else s
  }

  /** `s` without its trailing whitespace. */
  function StripTrailing(s: string): (t: string)
    ensures |t| <= |s| && t == s[..|t|]
    ensures t == [] || !IsSpace(t[|t| - 1])
    ensures forall i :: |t| <= i < |s| ==> IsSpace(s[i])
  {
    if s != [] && IsSpace(s[|s| - 1]) then StripTrailing(s[..|s| - 1]) else s
  }

  /** The whitespace stripping `int` does, at both ends. */
  function Strip(s: string): string {
    StripTrailing(StripLeading(s))
  }

  /**
    Digits, possibly separated by single underscores, starting and ending
    with a digit: a digit, then either nothing, or more digit groups, or an
    underscore and more digit groups.
  */
  predicate IsDigitGroups(d: string) {
    && |d| > 0
    && IsDigit(d[0])
    && (|d| == 1 || (if d[1] == '_' then IsDigitGroups(d[2..]) else IsDigitGroups(d[1..])))
  }

  /** The digits of a digit-group string, underscores dropped. */
  function GroupDigits(d: string): (ds: string)
    requires IsDigitGroups(d)
    ensures ds != [] && AllDigits(ds)
  {
    [d[0]] + (if |d| == 1 then [] else if d[1] == '_' then GroupDigits(d[2..]) else GroupDigits(d[1..]))
  }

  function GroupsValue(d: string): nat
    requires IsDigitGroups(d)
  {
    DecimalValue(GroupDigits(d))
  }

  /** `sys.get_int_max_str_digits()` by default: the most digits `int` converts. */
  const MaxStrDigits: nat := 4300

  /** `int(s)`: `Some(n)` when Python returns `n`, `None` when it raises ValueError. */
  function ParseInt(s: string): Option<int> {
    ParseStripped(Strip(s))
  }

  /**
    `int` on text that has no surrounding whitespace: an optional sign, then
    digit groups of at most `MaxStrDigits` digits.
  */
  function ParseStripped(t: string): Option<int> {
    if t != [] && (t[0] == '+' || t[0] == '-') then
      var body := t[1..];
      if IsDigitGroups(body) && |GroupDigits(body)| <= MaxStrDigits then
        var n: int := GroupsValue(body);
        Some(if t[0] == '-' then -n else n)
      else None
    else if IsDigitGroups(t) && |GroupDigits(t)| <= MaxStrDigits then Some(GroupsValue(t))
    else None
  }

  lemma {:induction false} DigitsAreGroups(d: string)
    requires d != [] && AllDigits(d)
    ensures IsDigitGroups(d) && GroupDigits(d) == d
  {
    if |d| > 1 {
      DigitsAreGroups(d[1..]);
    }
  }

  lemma StripNoSpace(s: string)
    requires forall i :: 0 <= i < |s| ==> !IsSpace(s[i])
    ensures Strip(s) == s
  {
  }

  /** Stripping keeps a first character that is not whitespace. */
  lemma StripKeepsFirst(x: string)
    requires x != [] && !IsSpace(x[0])
    ensures Strip(x) != [] && Strip(x) == x[..|Strip(x)|] && Strip(x)[0] == x[0]
  {
    assert StripLeading(x) == x;
    var t := StripTrailing(x);
    assert t != [] by {
      assert IsSpace(x[0]) || |t| > 0;
    }
  }

  lemma ParseIntUnpadded(x: string)
    requires Strip(x) == x
    ensures ParseInt(x) == ParseStripped(x)
  {
  }

  lemma DigitsValue(d: string)
    requires d != [] && AllDigits(d)
    ensures IsDigitGroups(d) && GroupDigits(d) == d && GroupsValue(d) == DecimalValue(d)
  {
    DigitsAreGroups(d);
  }

  lemma ParseStrippedDigits(d: string)
    requires d != [] && AllDigits(d)
    ensures ParseStripped(d) == if |d| <= MaxStrDigits then Some(DecimalValue(d)) else None
  {
    DigitsValue(d);
    assert IsDigit(d[0]);
  }

  /**
    A non-empty run of ASCII digits parses to its decimal value, leading
    zeros and all, unless it has more than `MaxStrDigits` digits.
  */
  lemma ParseIntDigits(d: string)
    requires d != [] && AllDigits(d)
    ensures ParseInt(d) == if |d| <= MaxStrDigits then Some(DecimalValue(d)) else None
  {
    StripNoSpace(d);
    ParseStrippedDigits(d);
  }

  lemma {:induction false} GroupsNoSpace(d: string)
    requires IsDigitGroups(d)
    ensures forall i :: 0 <= i < |d| ==> IsDigit(d[i]) || d[i] == '_'
  {
    if |d| > 1 {
      var rest := if d[1] == '_' then d[2..] else d[1..];
      GroupsNoSpace(rest);
      assert forall i :: 0 <= i < |rest| ==> rest[i] == d[|d| - |rest| + i];
    }
  }

  /**
    Digits grouped by single underscores: `int("1_000") == 1000`. The limit
    counts the digits only, not the underscores.
  */
  lemma ParseIntGroups(d: string)
    requires IsDigitGroups(d)
    ensures ParseInt(d) == if |GroupDigits(d)| <= MaxStrDigits then Some(GroupsValue(d)) else None
  {
    GroupsNoSpace(d);
    StripNoSpace(d);
  }

  /** A string made only of whitespace is not an integer (`int("  ")` raises). */
  lemma ParseIntBlank(s: string)
    requires forall i :: 0 <= i < |s| ==> IsSpace(s[i])
    ensures ParseInt(s) == None
  {
    assert StripLeading(s) == [];
  }

  /** Without a single digit there is no integer, whatever the signs and spaces. */
  lemma ParseIntNeedsDigit(s: string)
    requires forall i :: 0 <= i < |s| ==> !IsDigit(s[i])
    ensures ParseInt(s) == None
  {
    var l := StripLeading(s);
    var t := Strip(s);
    assert forall k :: 0 <= k < |t| ==> t[k] == s[|s| - |l| + k];
    if t != [] && (t[0] == '+' || t[0] == '-') {
      if |t| > 1 {
        assert t[1..][0] == t[1];
        assert !IsDigit(t[1]);
      }
    }
  }

  lemma {:induction false} StripLeadingFrom(s: string, n: nat)
    requires n < |s| && !IsSpace(s[n])
    requires forall i :: 0 <= i < n ==> IsSpace(s[i])
    ensures StripLeading(s) == s[n..]
    decreases n
  {
    if n > 0 {
      assert IsSpace(s[0]);
      var s' := s[1..];
      assert s'[n - 1] == s[n];
      assert forall i :: 0 <= i < n - 1 ==> s'[i] == s[i + 1];
      StripLeadingFrom(s', n - 1);
      assert s'[n - 1..] == s[n..];
    }
  }

  lemma StripLeadingSpaces(l: string, x: string)
    requires forall i :: 0 <= i < |l| ==> IsSpace(l[i])
    requires x != [] && !IsSpace(x[0])
    ensures StripLeading(l + x) == x
  {
    var lx := l + x;
    assert lx[|l|] == x[0];
    assert forall i :: 0 <= i < |l| ==> lx[i] == l[i];
    StripLeadingFrom(lx, |l|);
    assert lx[|l|..] == x;
  }

  lemma {:induction false} StripTrailingSpaces(x: string, r: string)
    requires forall i :: 0 <= i < |r| ==> IsSpace(r[i])
    requires x != [] && !IsSpace(x[|x| - 1])
    ensures StripTrailing(x + r) == x
  {
    if r != [] {
      assert (x + r)[..|x + r| - 1] == x + r[..|r| - 1];
      StripTrailingSpaces(x, r[..|r| - 1]);
    }
  }

  lemma StripPadded(l: string, x: string, r: string)
    requires forall i :: 0 <= i < |l| ==> IsSpace(l[i])
    requires forall i :: 0 <= i < |r| ==> IsSpace(r[i])
    requires x != [] && !IsSpace(x[0]) && !IsSpace(x[|x| - 1])
    ensures Strip(l + x + r) == x
  {
    assert l + x + r == l + (x + r);
    StripLeadingSpaces(l, x + r);
    StripTrailingSpaces(x, r);
  }

  /** Whitespace around the numeral is ignored: `int(" 12\n") == 12`. */
  lemma ParseIntPadded(l: string, d: string, r: string)
    requires forall i :: 0 <= i < |l| ==> IsSpace(l[i])
    requires forall i :: 0 <= i < |r| ==> IsSpace(r[i])
    requires d != [] && AllDigits(d)
    ensures ParseInt(l + d + r) == if |d| <= MaxStrDigits then Some(DecimalValue(d)) else None
  {
    StripPadded(l, d, r);
    ParseStrippedDigits(d);
  }

  /** The sign step of `ParseStripped`, on any text that starts with a sign. */
  lemma ParseStrippedSign(t: string)
    requires t != [] && (t[0] == '+' || t[0] == '-')
    ensures ParseStripped(t) ==
      if IsDigitGroups(t[1..]) && |GroupDigits(t[1..])| <= MaxStrDigits then
        Some(if t[0] == '-' then -(GroupsValue(t[1..]) as int) else GroupsValue(t[1..]))
      else None
  {
  }

  lemma ParseStrippedSignDigits(t: string, d: string)
    requires t != [] && (t[0] == '+' || t[0] == '-')
    requires t[1..] == d && IsDigitGroups(d) && GroupDigits(d) == d && GroupsValue(d) == DecimalValue(d)
    ensures ParseStripped(t) ==
      if |d| > MaxStrDigits then None
      else Some(if t[0] == '-' then -(DecimalValue(d) as int) else DecimalValue(d))
  {
    ParseStrippedSign(t);
  }

  lemma ParseStrippedSigned(sign: char, d: string)
    requires sign == '+' || sign == '-'
    requires d != [] && AllDigits(d)
    ensures ParseStripped([sign] + d) ==
      if |d| > MaxStrDigits then None
      else Some(if sign == '-' then -(DecimalValue(d) as int) else DecimalValue(d))
  {
    var t := [sign] + d;
    assert t[0] == sign;
    assert t[1..] == d;
    DigitsValue(d);
    ParseStrippedSignDigits(t, d);
  }

  lemma ParseUnpaddedSigned(sign: char, d: string)
    requires sign == '+' || sign == '-'
    requires d != [] && AllDigits(d)
    ensures ParseInt([sign] + d) == ParseStripped([sign] + d)
  {
    var t := [sign] + d;
    assert forall i :: 0 <= i < |t| ==> !IsSpace(t[i]) by {
      assert forall i :: 1 <= i < |t| ==> t[i] == d[i - 1];
    }
    StripNoSpace(t);
    assert Strip(t) == t;
  }

  /**
    One leading sign is accepted: `int("-5") == -5`, `int("+5") == 5`; the
    sign does not count toward the digit limit.
  */
  lemma ParseIntSigned(sign: char, d: string)
    requires sign == '+' || sign == '-'
    requires d != [] && AllDigits(d)
    ensures ParseInt([sign] + d) ==
      if |d| > MaxStrDigits then None
      else Some(if sign == '-' then -(DecimalValue(d) as int) else DecimalValue(d))
  {
    ParseUnpaddedSigned(sign, d);
    ParseStrippedSigned(sign, d);
  }

  lemma {:induction false} DecimalValueZeros(z: string)
    requires forall i :: 0 <= i < |z| ==> z[i] == '0'
    ensures AllDigits(z) && DecimalValue(z) == 0
  {
    if z != [] {
      DecimalValueZeros(z[..|z| - 1]);
    }
  }

  lemma {:induction false} DecimalValueLeadingZeros(z: string, d: string)
    requires forall i :: 0 <= i < |z| ==> z[i] == '0'
    requires AllDigits(d)
    ensures AllDigits(z + d) && DecimalValue(z + d) == DecimalValue(d)
  {
    if d == [] {
      assert z + d == z;
      DecimalValueZeros(z);
    } else {
      var p := d[..|d| - 1];
      DecimalValueLeadingZeros(z, p);
      assert (z + d)[..|z + d| - 1] == z + p;
    }
  }

  /**
    Leading zeros are accepted and do not change the value:
    `int("007") == int("7")`; but they count toward the digit limit.
  */
  lemma ParseIntLeadingZeros(z: string, d: string)
    requires forall i :: 0 <= i < |z| ==> z[i] == '0'
    requires d != [] && AllDigits(d)
    ensures |z + d| <= MaxStrDigits ==> ParseInt(z + d) == ParseInt(d) == Some(DecimalValue(d))
    ensures |z + d| > MaxStrDigits ==> ParseInt(z + d) == None
  {
    DecimalValueLeadingZeros(z, d);
    ParseIntDigits(z + d);
    ParseIntDigits(d);
  }

  /** A doubled sign is not a number, whatever follows: `int("--5")` raises. */
  lemma ParseIntDoubleSign(s1: char, s2: char, rest: string)
    requires s1 == '+' || s1 == '-'
    requires s2 == '+' || s2 == '-'
    ensures ParseInt([s1, s2] + rest) == None
  {
    var x := [s1, s2] + rest;
    assert x[0] == s1 && x[1] == s2;
    StripKeepsFirst(x);
    var t := Strip(x);
    if |t| > 1 {
      assert t[1] == s2;
      assert !IsDigitGroups(t[1..]) by {
        assert t[1..][0] == s2;
      }
    }
  }

  /** A sign alone is not a number: `int("+")` raises. */
  lemma ParseIntSignOnly(sign: char)
    requires sign == '+' || sign == '-'
    ensures ParseInt([sign]) == None
  {
    ParseIntNeedsDigit([sign]);
  }

  /**
    A string starting with an ASCII separator U+001C to U+001F is refused:
    `int` does not strip these, so `int("\x1c5")` raises.
  */
  lemma ParseIntSeparator(c: char, rest: string)
    requires '\U{1C}' <= c <= '\U{1F}'
    ensures ParseInt([c] + rest) == None
  {
    var x := [c] + rest;
    assert x[0] == c;
    StripKeepsFirst(x);
    assert !IsDigitGroups(Strip(x));
  }
}
