/**
 * The two Python conversions the System Notify page relies on: `int(...)` applied to
 * the "value" field of a decoded JSON reply, and the decimal text an `int` becomes
 * inside an f-string URL.
 */
module PyInt {
  import opened Wrappers

  /** A float as far as `int()` sees it: a finite float is carried by the integer
      `int()` truncates it to; `NaN` and the infinities are kept apart. */
  datatype Float = Finite(truncated: int) | Infinite | NaN

  /** The values `json.loads` can put in the "value" field of a reply. */
  datatype JsonValue =
    | JNull
    | JBool(b: bool)
    | JInt(i: int)
    | JFloat(f: Float)
    | JString(s: string)
    | JArray
    | JObject

  /** The Python exceptions the page's load loops can run into. */
  datatype Fault = JsonDecodeError | AttributeError | TypeError | ValueError | OverflowError

  /** Outcome of `int(v)`: its value, or the exception it raises. */
  datatype Conversion = Converted(n: int) | Raised(fault: Fault)

  predicate IsDigit(c: char) {
    '0' <= c <= '9'
  }

  function DigitValue(c: char): (d: nat)
    requires IsDigit(c)
    ensures d < 10
  {
    c as int - '0' as int
  }

  function DigitChar(d: nat): (c: char)
    requires d < 10
    ensures IsDigit(c) && DigitValue(c) == d
  {
    ('0' as int + d) as char
  }

  /** The ASCII characters `int()` strips from both ends of a text: tab, line feed,
      vertical tab, form feed, carriage return and space.  The separators 0x1c-0x1f,
      which `str.isspace` also accepts, are not stripped. */
  predicate IsSpace(c: char) {
    (9 <= c as int <= 13) || c == ' '
  }

  /** `s` without its leading white space. */
  function TrimStart(s: string): string {
    if s != [] && IsSpace(s[0]) then TrimStart(s[1..]) else s
  }

  /** `s` without its trailing white space. */
  function TrimEnd(s: string): string {
    if s != [] && IsSpace(s[|s| - 1]) then TrimEnd(s[..|s| - 1]) else s
  }

  function Strip(s: string): string {
    TrimEnd(TrimStart(s))
  }

  /** Python's grammar for a base-10 literal body: digits, where one underscore may
      separate two digits. */
  predicate DigitGroups(t: string) {
    && |t| > 0
    && IsDigit(t[0])
    && IsDigit(t[|t| - 1])
    && (forall i :: 0 <= i < |t| ==> IsDigit(t[i]) || t[i] == '_')
    && (forall i :: 0 <= i < |t| - 1 ==> IsDigit(t[i]) || IsDigit(t[i + 1]))
  }

  /** The number the digits of `t` spell, reading past underscores. */
  function ValueOf(t: string): nat
    requires forall i :: 0 <= i < |t| ==> IsDigit(t[i]) || t[i] == '_'
  {
    if t == [] then 0
    else if t[|t| - 1] == '_' then ValueOf(t[..|t| - 1])
    else 10 * ValueOf(t[..|t| - 1]) + DigitValue(t[|t| - 1])
  }

  function ParseDigits(t: string): Option<nat> {
    if DigitGroups(t) then Some(ValueOf(t)) else None
  }

  /** `int(s)` for a string `s`: `None` where Python raises `ValueError`. */
  function ParseInt(s: string): (r: Option<int>)
    ensures r.Some? ==> |Strip(s)| > 0 && IsDigit(Strip(s)[|Strip(s)| - 1])
    ensures r.Some? && r.value < 0 ==> Strip(s)[0] == '-'
  {
    var t := Strip(s);
    if |t| > 0 && (t[0] == '+' || t[0] == '-') then
      match ParseDigits(t[1..])
      case None => None
      case Some(m) =>
        var v: int := m;
        Some(if t[0] == '-' then -v else v)
    else
      match ParseDigits(t)
      case None => None
      case Some(m) => Some(m)
  }

  /** Decimal text of a natural number, as `str` writes it: no leading zero. */
  function NatToString(n: nat): (s: string)
    ensures |s| > 0
    ensures forall i :: 0 <= i < |s| ==> IsDigit(s[i])
    ensures s[0] == '0' ==> n == 0
  {
    if n < 10 then [DigitChar(n)] else NatToString(n / 10) + [DigitChar(n % 10)]
  }

  /** `str(n)`, also what `f"{n}"` inserts: a minus sign for negatives, then the digits. */
  function IntToString(n: int): (s: string)
    ensures |s| > 0 && (s[0] == '-' <==> n < 0)
    ensures forall i :: (if n < 0 then 1 else 0) <= i < |s| ==> IsDigit(s[i])
  {
    if n < 0 then "-" + NatToString(-n) else NatToString(n)
  }

  /** `int(s)` on a string. */
  function IntOfString(s: string): (r: Conversion)
    ensures r.Converted? <==> ParseInt(s).Some?
    ensures r.Converted? ==> r.n == ParseInt(s).value
    ensures r.Raised? ==> r.fault == ValueError
  {
    match ParseInt(s)
    case Some(n) => Converted(n)
    case None => Raised(ValueError)
  }

  /** `int(v)` on a value decoded from JSON. */
  function IntOf(v: JsonValue): (r: Conversion)
    ensures r.Raised? ==> r.fault == TypeError || r.fault == ValueError || r.fault == OverflowError
  {
    match v
    case JNull => Raised(TypeError)
    case JBool(b) => Converted(if b then 1 else 0)
    case JInt(i) => Converted(i)
    case JFloat(f) =>
      (match f
       case Finite(t) => Converted(t)
       case Infinite => Raised(OverflowError)
       case NaN => Raised(ValueError))
    case JString(s) => IntOfString(s)
    case JArray => Raised(TypeError)
    case JObject => Raised(TypeError)
  }

  /** `TrimStart` removes a prefix made of white space, and all of it. */
  lemma {:induction false} TrimStartRemovesLeadingSpace(s: string)
    ensures |TrimStart(s)| <= |s|
    ensures TrimStart(s) == s[|s| - |TrimStart(s)|..]
    ensures forall i :: 0 <= i < |s| - |TrimStart(s)| ==> IsSpace(s[i])
    ensures TrimStart(s) != [] ==> !IsSpace(TrimStart(s)[0])
  {
    if s != [] && IsSpace(s[0]) {
      var rest := s[1..];
      TrimStartRemovesLeadingSpace(rest);
      var t := TrimStart(rest);
      assert TrimStart(s) == t;
      assert rest[|rest| - |t|..] == s[|s| - |t|..];
      forall i | 0 <= i < |s| - |t|
        ensures IsSpace(s[i])
      {
        if i > 0 {
          assert s[i] == rest[i - 1];
        }
      }
    }
  }

  /** `TrimEnd` removes a suffix made of white space, and all of it. */
  lemma {:induction false} TrimEndRemovesTrailingSpace(s: string)
    ensures |TrimEnd(s)| <= |s|
    ensures TrimEnd(s) == s[..|TrimEnd(s)|]
    ensures forall i :: |TrimEnd(s)| <= i < |s| ==> IsSpace(s[i])
    ensures TrimEnd(s) != [] ==> !IsSpace(TrimEnd(s)[|TrimEnd(s)| - 1])
  {
    if s != [] && IsSpace(s[|s| - 1]) {
      TrimEndRemovesTrailingSpace(s[..|s| - 1]);
    }
  }

  lemma {:induction false} ValueOfNatToString(n: nat)
    ensures ValueOf(NatToString(n)) == n
  {
    var s := NatToString(n);
    if n >= 10 {
      assert s[..|s| - 1] == NatToString(n / 10);
      ValueOfNatToString(n / 10);
    } else {
      assert s[..|s| - 1] == [];
    }
  }

  /** The text `str` gives an integer is read back by `int` as the same integer. */
  lemma ParseIntOfIntToString(n: int)
    ensures ParseInt(IntToString(n)) == Some(n)
  {
    var s := IntToString(n);
    assert TrimStart(s) == s;
    assert TrimEnd(s) == s;
    if n < 0 {
      assert s[1..] == NatToString(-n);
      ValueOfNatToString(-n);
    } else {
      ValueOfNatToString(n);
    }
  }

  /** Formatting an integer loses nothing: different integers give different texts. */
  lemma IntToStringInjective(a: int, b: int)
    requires IntToString(a) == IntToString(b)
    ensures a == b
  {
    ParseIntOfIntToString(a);
    ParseIntOfIntToString(b);
  }

  /** `int()` accepts the text of every integer, and every JSON integer, unchanged. */
  lemma IntOfFormatted(n: int)
    ensures IntOf(JString(IntToString(n))) == Converted(n)
    ensures IntOf(JInt(n)) == Converted(n)
  {
    var s := IntToString(n);
    ParseIntOfIntToString(n);
    assert IntOfString(s) == Converted(n);
  }

  /** White space around the text, a sign, leading zeros and a single underscore
      between digits are all accepted. */
  lemma ParseIntAcceptsPythonSyntax()
    ensures ParseInt(" -0_7\n") == Some(-7)
  {
    var s := " -0_7\n";
    assert TrimStart(s) == s[1..];
    assert TrimEnd(s[1..]) == "-0_7";
    assert "-0_7"[1..] == "0_7";
    assert "0_7"[..2] == "0_" && "0_"[..1] == "0" && "0"[..0] == "";
  }

  /** A fraction, an empty text, a doubled underscore, a space after the sign and a
      leading information separator (0x1c) are refused. */
  lemma ParseIntRefusesNonIntegers()
    ensures ParseInt("4.5") == None
    ensures ParseInt("") == None
    ensures ParseInt("1__0") == None
    ensures ParseInt("- 5") == None
    ensures ParseInt("\U{1c}5") == None
  {
    assert !DigitGroups("4.5") by { assert "4.5"[1] == '.'; }
    assert !DigitGroups("1__0") by { assert "1__0"[1] == '_' && "1__0"[2] == '_'; }
    assert TrimEnd("- 5") == "- 5";
    assert "- 5"[1..] == " 5";
    assert Strip("\U{1c}5") == "\U{1c}5";
  }
}
