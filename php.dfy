/**
 * The PHP value semantics the endpoints depend on: truthiness and empty(),
 * the (int) and (string) casts, is_numeric(), the loose == used by in_array(),
 * and filter_var(..., FILTER_VALIDATE_INT).  Numbers are integers only.
 */
module Php {
  import opened Strings
  import opened Wrappers

  datatype Key = IntKey(i: int) | StrKey(s: string)

  /** A decoded JSON / request value. */
  datatype Value =
    | Null
    | Bool(b: bool)
    | Int(i: int)
    | Str(s: string)
    | Arr(entries: seq<(Key, Value)>)

  /** PHP's boolean conversion; empty() is its negation. */
  predicate Truthy(v: Value)
  {
    match v
    case Null => false
    case Bool(b) => b
    case Int(i) => i != 0
    case Str(s) => s != "" && s != "0"
    case Arr(es) => |es| > 0
  }

  /** empty() for a string. */
  predicate EmptyString(s: string) { s == "" || s == "0" }

  lemma EmptyStringIsFalsy(s: string)
    ensures EmptyString(s) <==> !Truthy(Str(s))
  {
  }

  /** The whitespace PHP skips around numeric strings. */
  const NumericBlanks: set<char> := {' ', '\t', '\n', '\r', '\U{000B}', '\U{000C}'}

  function StripSign(t: string): string
  {
    if |t| > 0 && (t[0] == '+' || t[0] == '-') then t[1..] else t
  }

  /** is_numeric() for integer notation: optional blanks, an optional sign, digits, optional blanks. */
  predicate IsIntString(s: string)
  {
    var t := TrimRightBy(TrimLeftBy(s, NumericBlanks), NumericBlanks);
    var d := StripSign(t);
    |d| > 0 && AllDigits(d)
  }

  /** A non-empty run of digits is integer notation. */
  lemma DigitsAreIntString(s: string)
    requires |s| > 0 && AllDigits(s)
    ensures IsIntString(s)
  {
    NoDigitIsBlank(s[0]);
    TrimLeftFixed(s, NumericBlanks);
    NoDigitIsBlank(s[|s| - 1]);
    TrimRightFixed(s, NumericBlanks);
    assert StripSign(s) == s;
  }

  /** The (int) cast of text: leading blanks, an optional sign, then the longest run of digits. */
  function IntVal(s: string): int
  {
    var t := TrimLeftBy(s, NumericBlanks);
    var magnitude: int := DigitsValue(DigitPrefix(StripSign(t)));
    if |t| > 0 && t[0] == '-' then -magnitude else magnitude
  }

  /** (int) cast of any value. */
  function ToInt(v: Value): int
  {
    match v
    case Null => 0
    case Bool(b) => if b then 1 else 0
    case Int(i) => i
    case Str(s) => IntVal(s)
    case Arr(es) => if |es| == 0 then 0 else 1
  }

  /** (string) cast of any value. */
  function ToStr(v: Value): string
  {
    match v
    case Null => ""
    case Bool(b) => if b then "1" else ""
    case Int(i) => IntToString(i)
    case Str(s) => s
    case Arr(_) => "Array"
  }

  predicate IsNumeric(v: Value)
  {
    match v
    case Int(_) => true
    case Str(s) => IsIntString(s)
    case _ => false
  }

  /** Casting the decimal text of an integer back gives that integer. */
  lemma IntValOfIntToString(i: int)
    ensures IntVal(IntToString(i)) == i
  {
    var n: nat := if i < 0 then -i else i;
    var digits := NatToString(n);
    DigitsOfNat(n);
    DigitPrefixOfDigits(digits);
    var s := IntToString(i);
    assert s[0] !in NumericBlanks;
    TrimLeftFixed(s, NumericBlanks);
    if i < 0 {
      assert StripSign(s) == digits;
    } else {
      assert StripSign(s) == digits;
    }
  }

  lemma {:induction false} DigitsValueLeadingZeros(z: string, ds: string)
    requires forall k :: 0 <= k < |z| ==> z[k] == '0'
    requires AllDigits(ds)
    ensures IntVal(z + ds) == DigitsValue(ds)
  {
    LeadingZeros(z, ds);
    var s := z + ds;
    DigitPrefixOfDigits(s);
    if |s| > 0 {
      assert s[0] !in NumericBlanks;
    }
    TrimLeftFixed(s, NumericBlanks);
  }

  /**
   * PHP 8's loose comparison ==, for the value kinds modelled: a boolean or
   * null operand compares truthiness, numbers and numeric strings compare
   * numerically, other strings compare as text.
   */
  predicate LooseEq(a: Value, b: Value)
  {
    match (a, b)
    case (Bool(x), _) => x == Truthy(b)
    case (_, Bool(y)) => Truthy(a) == y
    case (Null, Null) => true
    case (Null, Str(t)) => t == ""
    case (Str(s), Null) => s == ""
    case (Null, _) => !Truthy(b)
    case (_, Null) => !Truthy(a)
    case (Int(x), Int(y)) => x == y
    case (Int(x), Str(t)) => if IsIntString(t) then x == IntVal(t) else IntToString(x) == t
    case (Str(s), Int(y)) => if IsIntString(s) then IntVal(s) == y else s == IntToString(y)
    case (Str(s), Str(t)) => if IsIntString(s) && IsIntString(t) then IntVal(s) == IntVal(t) else s == t
    case (Arr(x), Arr(y)) => x == y
    case _ => false
  }

  /** in_array() without the strict flag. */
  predicate InArrayLoose(v: Value, haystack: seq<Value>)
  {
    exists k :: 0 <= k < |haystack| && LooseEq(v, haystack[k])
  }

  /** in_array() with the strict flag. */
  predicate InArrayStrict(v: Value, haystack: seq<Value>)
  {
    v in haystack
  }

  /** A haystack holding both true and false matches every value loosely. */
  lemma BooleansMatchEverything(v: Value, haystack: seq<Value>)
    requires Bool(true) in haystack && Bool(false) in haystack
    ensures InArrayLoose(v, haystack)
  {
    var kt :| 0 <= kt < |haystack| && haystack[kt] == Bool(true);
    var kf :| 0 <= kf < |haystack| && haystack[kf] == Bool(false);
    if Truthy(v) {
      assert LooseEq(v, haystack[kt]);
    } else {
      assert LooseEq(v, haystack[kf]);
    }
  }

  /** The shape FILTER_VALIDATE_INT accepts: a sign, then 0 or digits without a leading zero. */
  predicate CanonicalInt(t: string)
  {
    var d := StripSign(t);
    |d| > 0 && AllDigits(d) && (|d| == 1 || d[0] != '0')
  }

  /** filter_var() with FILTER_VALIDATE_INT: the integer, or None where PHP gives false. */
  function FilterValidateInt(v: Value): (r: Option<int>)
    ensures v.Int? ==> r == Some(v.i)
    ensures v.Null? || v.Arr? || v == Bool(false) ==> r == None
    ensures v.Str? && r.Some? ==> CanonicalInt(Trim(v.s)) && r.value == IntVal(Trim(v.s))
  {
    match v
    case Int(i) => Some(i)
    case Bool(b) => if b then Some(1) else None
    case Str(s) =>
      var t := Trim(s);
      if CanonicalInt(t) then Some(IntVal(t)) else None
    case _ => None
  }

  /** The decimal text of an integer passes the filter as that integer. */
  lemma FilterAcceptsDecimalText(i: int)
    ensures FilterValidateInt(Str(IntToString(i))) == Some(i)
  {
    var s := IntToString(i);
    var n: nat := if i < 0 then -i else i;
    var digits := NatToString(n);
    assert StripSign(s) == digits;
    assert CanonicalInt(s);
    assert IsDigit(s[|s| - 1]);
    NoDigitIsBlank(s[|s| - 1]);
    assert s[0] == '-' || IsDigit(s[0]);
    if s[0] != '-' {
      NoDigitIsBlank(s[0]);
    }
    TrimLeftFixed(s, Blanks);
    TrimRightFixed(s, Blanks);
    assert Trim(s) == s;
    IntValOfIntToString(i);
  }

  lemma NoDigitIsBlank(c: char)
    requires IsDigit(c)
    ensures c !in Blanks && c !in NumericBlanks
  {
  }

  /** Zero-padded text is refused by the filter. */
  lemma FilterRejectsLeadingZero()
    ensures FilterValidateInt(Str("07")) == None
  {
    var s := "07";
    NoDigitIsBlank(s[0]);
    NoDigitIsBlank(s[1]);
    TrimLeftFixed(s, Blanks);
    TrimRightFixed(s, Blanks);
    assert !CanonicalInt(Trim(s));
  }

  /** ... although (int) reads it as 7. */
  lemma CastReadsLeadingZero()
    ensures IntVal("07") == 7
  {
    var d := "7";
    assert AllDigits(d);
    assert d[..0] == "";
    assert DigitsValue(d) == 7;
    assert "0" + d == "07";
    DigitsValueLeadingZeros("0", d);
  }
}
