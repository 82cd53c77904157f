/**
  The part of the PHP 8 runtime the plugin's helpers depend on: a value model for
  `mixed`, `is_numeric`, `strpos`/`mb_strpos`, `str_starts_with`, `is_countable`
  and `count`. Strings are sequences of characters; byte-versus-character
  offsets are not distinguished.
*/
module Php {
  import opened Wrappers
  import opened Decimal

  /** A PHP value as far as the helpers look at it. */
  datatype PhpValue =
    | Null
    | Bool(b: bool)
    | Int(i: int)
    | Float(f: real)
    | Str(s: string)
      /** An array; only its values in iteration order are kept, not its keys. */
    | Arr(items: seq<PhpValue>)
      /** An object; `countable` holds what `count()` reports when the class implements Countable. */
    | Obj(countable: Option<nat>)

  /** What `0 + $x` can evaluate to: an int or a float. */
  type NumberValue = v: PhpValue | v.Int? || v.Float? witness Int(0)

  /** The errors PHP's built-ins raise in the modelled code paths. */
  datatype PhpError = ValueError

  // ---------------------------------------------------------------------------
  // is_numeric
  // ---------------------------------------------------------------------------

  /** The whitespace PHP allows around a numeric string: space, \t, \n, \r, \v, \f. */
  predicate IsSpace(c: char) {
    c == ' ' || c == '\t' || c == '\n' || c == '\r' || c == '\U{000B}' || c == '\U{000C}'
  }

  /**
    States of a scanner for PHP 8's numeric-string grammar:
    WS* [+-]? (LNUM | DNUM | EXPONENT_DNUM) WS*, where LNUM is [0-9]+,
    DNUM is [0-9]*.[0-9]+ or [0-9]+.[0-9]*, and the exponent is [eE][+-]?LNUM.
  */
  datatype NumState =
    | Start     // leading whitespace only
    | Sign      // after the sign
    | IntDigits // digits, no point yet
    | Point     // a point with no digit before it
    | Fraction  // a point with a digit somewhere around it
    | ExpMark   // after e or E
    | ExpSign   // after the exponent's sign
    | ExpDigits // exponent digits
    | TrailWs   // trailing whitespace after a complete number
    | Dead      // no continuation can be numeric

  function Step(st: NumState, c: char): NumState {
    match st
    case Start =>
      if IsSpace(c) then Start
      else if c == '+' || c == '-' then Sign
      else if IsDigit(c) then IntDigits
      else if c == '.' then Point
      else Dead
    case Sign =>
      if IsDigit(c) then IntDigits else if c == '.' then Point else Dead
    case IntDigits =>
      if IsDigit(c) then IntDigits
      else if c == '.' then Fraction
      else if c == 'e' || c == 'E' then ExpMark
      else if IsSpace(c) then TrailWs
      else Dead
    case Point =>
      if IsDigit(c) then Fraction else Dead
    case Fraction =>
      if IsDigit(c) then Fraction
      else if c == 'e' || c == 'E' then ExpMark
      else if IsSpace(c) then TrailWs
      else Dead
    case ExpMark =>
      if c == '+' || c == '-' then ExpSign else if IsDigit(c) then ExpDigits else Dead
    case ExpSign =>
      if IsDigit(c) then ExpDigits else Dead
    case ExpDigits =>
      if IsDigit(c) then ExpDigits else if IsSpace(c) then TrailWs else Dead
    case TrailWs =>
      if IsSpace(c) then TrailWs else Dead
    case Dead => Dead
  }

  function Run(st: NumState, s: string): NumState
    decreases |s|
  {
    if |s| == 0 then st else Run(Step(st, s[0]), s[1..])
  }

  predicate Accepting(st: NumState) {
    st == IntDigits || st == Fraction || st == ExpDigits || st == TrailWs
  }

  /** `is_numeric($s)` for a string `$s`. */
  predicate IsNumericString(s: string) {
    Accepting(Run(Start, s))
  }

  /** `is_numeric($v)`: ints, floats and numeric strings. */
  predicate IsNumeric(v: PhpValue) {
    match v
    case Int(_) => true
    case Float(_) => true
    case Str(s) => IsNumericString(s)
    case _ => false
  }

  /** Once the scanner has rejected a prefix, no continuation is numeric. */
  lemma {:induction false} DeadIsFinal(s: string)
    ensures Run(Dead, s) == Dead
  {
    if |s| > 0 {
      DeadIsFinal(s[1..]);
    }
  }

  /**
    A numeric string starts with whitespace, a sign, a digit or a point. In
    particular a string starting with `{`, `[`, `"` or a letter is never numeric.
  */
  lemma NumericLeadingChar(s: string)
    ensures IsNumericString(s) ==>
      |s| > 0 && (IsSpace(s[0]) || s[0] == '+' || s[0] == '-' || s[0] == '.' || IsDigit(s[0]))
  {
    if |s| > 0 && !(IsSpace(s[0]) || s[0] == '+' || s[0] == '-' || s[0] == '.' || IsDigit(s[0])) {
      DeadIsFinal(s[1..]);
    }
  }

  /** Digits keep the scanner in the state where it already reads digits. */
  lemma {:induction false} DigitsStayIntDigits(s: string)
    requires AllDigits(s)
    ensures Run(IntDigits, s) == IntDigits
  {
    if |s| > 0 {
      DigitsStayIntDigits(s[1..]);
    }
  }

  /** Every optionally signed, non-empty run of decimal digits is numeric. */
  lemma {:induction false} IntegerStringIsNumeric(sign: string, digits: string)
    requires sign == "" || sign == "-" || sign == "+"
    requires |digits| > 0 && AllDigits(digits)
    ensures IsNumericString(sign + digits)
  {
    DigitsStayIntDigits(digits[1..]);
    if sign == "" {
      assert (sign + digits)[1..] == digits[1..];
    } else {
      assert (sign + digits)[1..] == digits;
      assert digits[1..] == (sign + digits)[2..];
    }
  }

  // ---------------------------------------------------------------------------
  // strpos / mb_strpos / str_starts_with
  // ---------------------------------------------------------------------------

  /** `needle` occurs in `haystack` at index `i`. */
  predicate MatchAt(haystack: string, needle: string, i: nat) {
    i + |needle| <= |haystack| && haystack[i..i + |needle|] == needle
  }

  /** `needle` occurs in `haystack` somewhere at or after index `start`. */
  predicate OccursFrom(haystack: string, needle: string, start: nat) {
    exists j: nat :: start <= j <= |haystack| && MatchAt(haystack, needle, j)
  }

  /** The first occurrence of `needle` in `haystack` at or after `start`. */
  function Find(haystack: string, needle: string, start: nat): (r: Option<nat>)
    decreases |haystack| - start
    ensures r.Some? ==> start <= r.value && MatchAt(haystack, needle, r.value)
    ensures r.Some? ==> forall j :: start <= j < r.value ==> !MatchAt(haystack, needle, j)
    ensures r.None? ==> forall j :: start <= j ==> !MatchAt(haystack, needle, j)
  {
    if start + |needle| > |haystack| then None
    else if haystack[start..start + |needle|] == needle then Some(start)
    else Find(haystack, needle, start + 1)
  }

  /**
    PHP 8's resolution of a search offset against a string of length `len`: a
    negative offset counts from the end; anything outside 0..len is an error.
  */
  function ResolveOffset(len: nat, offset: int): (r: Option<nat>)
    ensures r.Some? <==> 0 - len <= offset <= len
    ensures r.Some? ==> r.value <= len
    ensures 0 <= offset <= len ==> r == Some(offset)
    ensures 0 - len <= offset < 0 ==> r.Some? && r.value == len + offset
  {
    var start: int := if offset < 0 then len + offset else offset;
    if start < 0 || start > len then None else Some(start)
  }

  /**
    `strpos`/`mb_strpos($haystack, $needle, $offset)`: the index of the first
    occurrence at or after the resolved offset (`None` for PHP's `false`), or a
    ValueError when the offset lies outside the haystack.
  */
  function StrPos(haystack: string, needle: string, offset: int): (r: Result<Option<nat>, PhpError>)
    ensures r.Err? <==> ResolveOffset(|haystack|, offset).None?
    ensures r.Ok? && r.value.Some? ==> MatchAt(haystack, needle, r.value.value)
    ensures r.Ok? ==> (r.value.Some? <==> OccursFrom(haystack, needle, ResolveOffset(|haystack|, offset).value))
    ensures r.Ok? && r.value.Some? ==>
      && ResolveOffset(|haystack|, offset).value <= r.value.value
      && forall j :: ResolveOffset(|haystack|, offset).value <= j < r.value.value ==> !MatchAt(haystack, needle, j)
  {
    match ResolveOffset(|haystack|, offset)
    case None => Err(ValueError)
    case Some(start) => Ok(Find(haystack, needle, start))
  }

  /** `str_starts_with($s, $prefix)`. */
  predicate StartsWith(s: string, prefix: string) {
    prefix <= s
  }

  // ---------------------------------------------------------------------------
  // is_countable / count
  // ---------------------------------------------------------------------------

  predicate IsCountable(v: PhpValue) {
    v.Arr? || (v.Obj? && v.countable.Some?)
  }

  /** `count($v)` for a countable value: the number of array entries, or the object's own count. */
  function Count(v: PhpValue): nat
    requires IsCountable(v)
  {
    if v.Arr? then |v.items| else v.countable.value
  }
}
