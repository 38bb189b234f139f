/**
 * Decoded JSON (and TOML) values as the Python code sees them, with Python's truthiness,
 * `dict.get`, the `a or b` operator and `str(value)`.
 */
module Json {
  import opened Wrappers
  import opened Text

  /** A decoded payload value. Floating-point numbers are not part of this model. */
  datatype Json =
    | Null
    | Bool(b: bool)
    | Int(i: int)
    | Str(s: string)
    | Arr(items: seq<Json>)
    | Obj(fields: map<string, Json>)

  const EmptyObj: Json := Obj(map[])

  /** Python's `bool(value)`: None, False, 0 and empty strings, lists and dicts are false. */
  predicate Truthy(j: Json) {
    match j
    case Null => false
    case Bool(b) => b
    case Int(i) => i != 0
    case Str(s) => s != []
    case Arr(items) => items != []
    case Obj(fields) => fields != map[]
  }

  /** `d.get(key, default)` on a dict. */
  function Get(d: map<string, Json>, key: string, default: Json): Json {
    if key in d then d[key] else default
  }

  /** Python's `a or b`: the first operand when it is truthy, otherwise the second. */
  function Or(a: Json, b: Json): (r: Json)
    ensures Truthy(a) ==> r == a
    ensures !Truthy(a) ==> r == b
  {
    if Truthy(a) then a else b
  }

  /**
   * `str(value)`. Lists and dicts are rendered by a fixed placeholder that, like Python's
   * rendering, starts with a bracket; their exact text is not modelled.
   */
  function PyStr(j: Json): (r: string)
    ensures j.Str? ==> r == j.s
    ensures j.Arr? || j.Obj? ==> |r| > 0 && (r[0] == '[' || r[0] == '{')
  {
    match j
    case Null => "None"
    case Bool(b) => if b then "True" else "False"
    case Int(i) => IntToString(i)
    case Str(s) => s
    case Arr(_) => "[...]"
    case Obj(_) => "{...}"
  }

  /** A decimal literal as `int()` accepts it: digits, with single underscores between digits. */
  predicate IsDecimalLiteral(t: string) {
    && t != [] && IsDigit(t[0]) && IsDigit(t[|t| - 1])
    && (forall i :: 0 <= i < |t| ==> IsDigit(t[i]) || t[i] == '_')
    && (forall i, j :: 0 <= i < |t| && 0 <= j < |t| && j == i + 1 ==> t[i] != '_' || t[j] != '_')
  }

  /** The digits of a literal without its underscores. */
  function WithoutUnderscores(t: string): (r: string)
    ensures |r| <= |t|
  {
    if t == [] then [] else (if t[0] == '_' then [] else [t[0]]) + WithoutUnderscores(t[1..])
  }

  /** An unsigned decimal literal read as its value. */
  function ParseUnsigned(t: string): Option<nat> {
    if IsDecimalLiteral(t) then Some(DigitsValue(WithoutUnderscores(t))) else None
  }

  /** Python's `int(text)`: surrounding whitespace, an optional sign, then a decimal literal. */
  function ParseIntText(text: string): Option<int> {
    var t := Strip(text);
    if t != [] && (t[0] == '+' || t[0] == '-') then
      match ParseUnsigned(t[1..])
      case None => None
      case Some(n) => Some(if t[0] == '-' then -(n as int) else n as int)
    else
      match ParseUnsigned(t)
      case None => None
      case Some(n) => Some(n)
  }

  /**
   * Python's `int(value)` on a decoded value: integers as they are, booleans as 0 and 1,
   * strings as `int()` reads them; None, lists, dicts and unreadable strings raise.
   */
  function PyInt(j: Json): Outcome<int> {
    match j
    case Int(i) => Returned(i)
    case Bool(b) => Returned(if b then 1 else 0)
    case Str(s) => (match ParseIntText(s) case Some(i) => Returned(i) case None => Raised)
    case _ => Raised
  }

  /** A string of digits is a literal without underscores. */
  lemma {:induction false} DigitsLiteral(t: string)
    requires |t| > 0 && AllDigits(t)
    ensures IsDecimalLiteral(t) && WithoutUnderscores(t) == t
  {
    if |t| > 1 {
      DigitsLiteral(t[1..]);
      assert t == [t[0]] + t[1..];
    }
  }

  /** Digits read as their value. */
  lemma ParseDigits(digits: string)
    requires |digits| > 0 && AllDigits(digits)
    ensures ParseIntText(digits) == Some(DigitsValue(digits) as int)
  {
    UnsignedDigits(digits);
    StripUnchanged(digits, Whitespace);
    UnsignedText(digits);
  }

  /** A stripped text starting with a digit is read without a sign. */
  lemma UnsignedText(t: string)
    requires Strip(t) == t && t != [] && IsDigit(t[0])
    ensures ParseIntText(t) == match ParseUnsigned(t) case None => None case Some(n) => Some(n as int)
  {
  }

  /** A minus sign followed by digits reads as the negated value of the digits. */
  lemma NegatedText(t: string)
    requires |t| > 1 && t[0] == '-' && AllDigits(t[1..])
    ensures ParseIntText(t) == Some(-(DigitsValue(t[1..]) as int))
  {
    assert Strip(t) == t by {
      NegatedUnstripped(t[1..]);
      assert t == "-" + t[1..];
    }
    UnsignedDigits(t[1..]);
    NegativeText(t);
  }

  /** A stripped text starting with a minus sign is read as the negated literal after it. */
  lemma NegativeText(t: string)
    requires Strip(t) == t && t != [] && t[0] == '-'
    ensures ParseIntText(t) == match ParseUnsigned(t[1..]) case None => None case Some(n) => Some(-(n as int))
  {
  }

  /** Digits without a sign read as their value. */
  lemma UnsignedDigits(digits: string)
    requires |digits| > 0 && AllDigits(digits)
    ensures ParseUnsigned(digits) == Some(DigitsValue(digits))
  {
    DigitsLiteral(digits);
  }

  /** Stripping leaves a minus sign followed by digits as it is. */
  lemma NegatedUnstripped(digits: string)
    requires |digits| > 0 && AllDigits(digits)
    ensures Strip("-" + digits) == "-" + digits
  {
    var t := "-" + digits;
    assert t[|t| - 1] == digits[|digits| - 1];
    StripUnchanged(t, Whitespace);
  }

  /** `int(str(i)) == i`: reading back the decimal rendering of any integer gives the integer. */
  lemma PyIntOfRendering(i: int)
    ensures PyInt(Str(IntToString(i))) == Returned(i)
  {
    if i < 0 {
      var t := IntToString(i);
      assert t[1..] == NatToString(-i);
      NegatedText(t);
    } else {
      ParseDigits(NatToString(i));
    }
  }

  /** `int()` of None, a list or a dict raises; of a boolean it is 0 or 1. */
  lemma PyIntCases(j: Json)
    ensures j.Null? || j.Arr? || j.Obj? ==> PyInt(j) == Raised
    ensures j.Bool? ==> PyInt(j) == Returned(if j.b then 1 else 0)
    ensures j.Int? ==> PyInt(j) == Returned(j.i)
  {
  }
}
