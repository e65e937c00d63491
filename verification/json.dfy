/** The untyped JSON value `pcr_ids` is held in (`serde_json::Value`), its
    number representation, and the parse of a string as a JSON number
    (`str::parse::<serde_json::Number>`). */
module Json {
  import opened Wrappers
  import opened Text

  const Two64: int := 0x1_0000_0000_0000_0000
  const Two63: int := 0x8000_0000_0000_0000

  type Uint64 = n: nat | n < Two64

  /** The range of a negative `i64`. */
  type NegInt64 = i: int | -Two63 <= i < 0 witness -1

  /** `serde_json::Number`: a non-negative integer that fits a `u64`, a
      negative integer that fits an `i64`, or a float. Floats carry no
      value here: only their being non-`u64` matters to the model. */
  datatype JsonNumber = PosInt(u: Uint64) | NegInt(i: NegInt64) | Float

  datatype Json =
    | Null
    | Bool(b: bool)
    | Number(num: JsonNumber)
    | String(str: string)
    | Array(items: seq<Json>)
    | Object(members: seq<(string, Json)>)

  /** `Value::is_u64`. */
  predicate IsU64(v: Json) {
    v.Number? && v.num.PosInt?
  }

  /** The syntax of a JSON number (section 6 of RFC 8259), as
      `serde_json` reads it: an optional minus, integer digits, and whether a
      fraction or exponent follows. */
  datatype NumberSyntax = NumberSyntax(negative: bool, intDigits: string, fractional: bool)

  /** Length of the run of ASCII digits at the front of `s`. */
  function DigitRun(s: string): (k: nat)
    ensures k <= |s| && AllDigits(s[..k])
    ensures k < |s| ==> !IsDigit(s[k])
  {
    if |s| > 0 && IsDigit(s[0]) then
      var k := 1 + DigitRun(s[1..]);
      assert s[..k] == [s[0]] + s[1..][..k - 1];
      k
    else 0
  }

  lemma DigitRunOfDigits(s: string)
    requires AllDigits(s)
    ensures DigitRun(s) == |s|
  {
  }

  /** `[eE][+-]?digits` running to the end of the string, or nothing. */
  predicate IsExponentTail(s: string) {
    s == [] ||
    (s[0] in "eE" &&
     var t := if |s| > 1 && s[1] in "+-" then s[2..] else s[1..];
     |t| >= 1 && AllDigits(t))
  }

  /** An optional `.digits` fraction followed by an optional exponent,
      running to the end of the string. */
  predicate IsFractionTail(s: string) {
    if |s| > 0 && s[0] == '.' then
      var k := DigitRun(s[1..]);
      k >= 1 && IsExponentTail(s[1..][k..])
    else IsExponentTail(s)
  }

  /** Lexes the whole of `s` as one JSON number; `None` for anything else,
      including the empty string, a leading `+`, a leading zero followed by a
      digit and trailing characters. */
  function LexNumber(s: string): (r: Option<NumberSyntax>)
    ensures r.Some? ==> |s| >= 1 && (s[0] == '-' || IsDigit(s[0]))
    ensures r.Some? ==> r.value.negative == (s[0] == '-')
    ensures r.Some? ==> IsCanonicalDigits(r.value.intDigits)
  {
    var negative := |s| > 0 && s[0] == '-';
    var body := if negative then s[1..] else s;
    var k := DigitRun(body);
    var digits := body[..k];
    if IsCanonicalDigits(digits) && IsFractionTail(body[k..]) then
      Some(NumberSyntax(negative, digits, body[k..] != []))
    else None
  }

  /** A number without fraction or exponent is exactly its sign and its
      integer digits. */
  lemma LexPlain(s: string)
    requires LexNumber(s).Some? && !LexNumber(s).value.fractional
    ensures s == (if LexNumber(s).value.negative then "-" else "") + LexNumber(s).value.intDigits
  {
    var negative := |s| > 0 && s[0] == '-';
    var body := if negative then s[1..] else s;
    var k := DigitRun(body);
    assert body[k..] == [];
    assert body == body[..k];
    if negative {
      assert s == "-" + body;
    }
  }

  /** A plain unsigned integer lexes as itself. */
  lemma LexUnsigned(s: string)
    requires IsCanonicalDigits(s)
    ensures LexNumber(s) == Some(NumberSyntax(false, s, false))
  {
    DigitRunOfDigits(s);
    assert s[0] != '-';
    assert s[..|s|] == s;
    assert s[|s|..] == [];
  }

  /** A minus sign followed by a plain integer lexes as a negative integer. */
  lemma LexNegative(s: string)
    requires |s| >= 2 && s[0] == '-' && IsCanonicalDigits(s[1..])
    ensures LexNumber(s) == Some(NumberSyntax(true, s[1..], false))
  {
    var body := s[1..];
    DigitRunOfDigits(body);
    assert body[..|body|] == body;
    assert body[|body|..] == [];
  }

  /** Plain integer literals, signed or not, lex as integers. */
  lemma LexIntegers(s: string)
    ensures IsCanonicalDigits(s) ==> LexNumber(s) == Some(NumberSyntax(false, s, false))
    ensures |s| >= 2 && s[0] == '-' && IsCanonicalDigits(s[1..]) ==>
              LexNumber(s) == Some(NumberSyntax(true, s[1..], false))
  {
    if IsCanonicalDigits(s) {
      LexUnsigned(s);
    }
    if |s| >= 2 && s[0] == '-' && IsCanonicalDigits(s[1..]) {
      LexNegative(s);
    }
  }

  /** A sufficient condition for a JSON number to stay below `f64::MAX`
      (about 1.8e308): no exponent, and at most 308 characters, so at most
      308 integer digits and a magnitude below 10^308 < `f64::MAX`. */
  predicate WithinF64Range(s: string) {
    |s| <= 308 && 'e' !in s && 'E' !in s
  }

  /** `str::parse::<serde_json::Number>`: `None` when the string is not a
      JSON number. An integer without fraction or exponent is a `PosInt` when
      it fits a `u64` and a `NegInt` when it is negative and fits an `i64`;
      every other number (a fraction, an exponent, `-0`, an integer outside
      both ranges) is a float. serde_json also rejects a number whose
      magnitude overflows `f64`; this model does not, so the contract speaks
      about non-`u64` numbers only within `WithinF64Range`. */
  function ParseNumber(s: string): (r: Option<JsonNumber>)
    ensures r.Some? && r.value.PosInt? <==> IsCanonicalDigits(s) && DigitsValue(s) < Two64
    ensures r.Some? && r.value.PosInt? ==> r.value.u == DigitsValue(s)
    ensures r.Some? ==> |s| >= 1 && (s[0] == '-' || IsDigit(s[0]))
    ensures r.Some? <==> LexNumber(s).Some?
    ensures IsCanonicalDigits(s) && WithinF64Range(s) ==> r.Some?
    ensures |s| >= 2 && s[0] == '-' && IsCanonicalDigits(s[1..]) && WithinF64Range(s) ==>
              r.Some? && !r.value.PosInt?
  {
    LexIntegers(s);
    match LexNumber(s)
    case None => None
    case Some(syntax) =>
      var v := DigitsValue(syntax.intDigits);
      if syntax.fractional then Some(Float)
      else if !syntax.negative then
        LexPlain(s);
        if v < Two64 then Some(PosInt(v)) else Some(Float)
      else if 1 <= v <= Two63 then Some(NegInt(-(v as int)))
      else Some(Float)
  }

  /** A fraction or an exponent makes a float, whatever its value. */
  lemma FractionalIsFloat(s: string)
    requires LexNumber(s).Some? && LexNumber(s).value.fractional
    ensures ParseNumber(s) == Some(Float)
  {
  }

  /** `-0` is a float, not an integer. */
  lemma MinusZeroIsFloat()
    ensures ParseNumber("-0") == Some(Float)
  {
    LexNegative("-0");
    assert "-0"[1..] == "0";
  }

  /** A leading zero followed by another digit is not a JSON number. */
  lemma LeadingZeroRejected(s: string)
    requires |s| >= 2 && s[0] == '0' && IsDigit(s[1])
    ensures ParseNumber(s) == None
  {
    var k := DigitRun(s);
    assert k >= 2 by {
      assert DigitRun(s) == 1 + DigitRun(s[1..]);
      assert s[1..][0] == s[1];
    }
    assert !IsCanonicalDigits(s[..k]);
  }

  /** A `u64` written by `to_string` parses back to itself. */
  lemma ParseDecimal(n: Uint64)
    ensures ParseNumber(Decimal(n)) == Some(PosInt(n))
  {
  }
}
