/** Worked instances of the normaliser's rules: the accepted input shapes,
    the error each bad input gets, and the defaults. */
module Examples {
  import opened Wrappers
  import opened Text
  import opened Json
  import opened Configuration
  import opened Normalizer
  import opened NormalizerProperties

  function Ids(ns: seq<Uint64>): Option<Json> {
    Some(Array(NumbersOf(ns)))
  }

  lemma DecimalsOneSevenTwelve()
    ensures DecimalsOf([1, 7, 12]) == ["1", "7", "12"]
  {
    var d := DecimalsOf([1, 7, 12]);
    assert Decimal(1) == "1" && Decimal(7) == "7" && Decimal(12) == "12";
    assert d[0] == "1" && d[1] == "7" && d[2] == "12";
  }

  /** `get_pcr_ids_str` writes `[1, 7, 12]` as `"1,7,12"`. */
  lemma CommaStringWritten()
    ensures GetPcrIdsStr(Blank.(pcrIds := Ids([1, 7, 12]))) == Some("1,7,12")
  {
    GetPcrIdsOfNumbers(Blank.(pcrIds := Ids([1, 7, 12])), [1, 7, 12]);
    DecimalsOneSevenTwelve();
    var d := ["1", "7", "12"];
    assert Join(d, ',') == "1,7,12" by {
      assert d[1..] == ["7", "12"];
      assert d[1..][1..] == ["12"];
    }
  }

  /** `"1,7,12"` becomes `[1, 7, 12]`. */
  lemma CommaString()
    ensures NormalizePcrIds(Some(String("1,7,12"))) == Success(Ids([1, 7, 12]))
  {
    CommaStringWritten();
    PcrIdsStrRoundTrip(Blank.(pcrIds := Ids([1, 7, 12])));
  }

  /** The spaced form `"1, 7,12"`: the space after a comma is trimmed
      away, giving `[1, 7, 12]` as well. */
  lemma SpacedCommaString()
    ensures NormalizePcrIds(Some(String("1, 7,12"))) == Success(Ids([1, 7, 12]))
  {
    SpacedTrimmed();
    NormalizeString("1, 7,12");
    ConvertDecimals([1, 7, 12]);
  }

  lemma SpacedPieces()
    ensures Split("1, 7,12", ',') == ["1", " 7", "12"]
  {
    var pieces := ["1", " 7", "12"];
    assert Join(pieces, ',') == "1, 7,12" by {
      assert pieces[1..] == [" 7", "12"];
      assert pieces[1..][1..] == ["12"];
    }
    assert forall i :: 0 <= i < |pieces| ==> ',' !in pieces[i];
    SplitJoin(pieces, ',');
  }

  lemma SpacedTrimmed()
    ensures TrimmedPieces("1, 7,12") == StringsOf([1, 7, 12])
  {
    SpacedTexts();
    StringsOneSevenTwelve();
  }

  lemma SpacedTexts()
    ensures TrimmedPieces("1, 7,12") == [String("1"), String("7"), String("12")]
  {
    SpacedPieces();
    OneTrimmed();
    SevenTrimmed();
    TwelveTrimmed();
    ThreeTrimmedPieces("1, 7,12", "1", " 7", "12");
  }

  lemma StringsOneSevenTwelve()
    ensures StringsOf([1, 7, 12]) == [String("1"), String("7"), String("12")]
  {
    DecimalsOneSevenTwelve();
    var d := DecimalsOf([1, 7, 12]);
    var u := StringsOf([1, 7, 12]);
    assert u[0] == String(d[0]) && u[1] == String(d[1]) && u[2] == String(d[2]);
  }

  /** `TrimmedPieces` of a string cut into three pieces. */
  lemma ThreeTrimmedPieces(s: string, a: string, b: string, c: string)
    requires Split(s, ',') == [a, b, c]
    ensures TrimmedPieces(s) == [String(Trim(a)), String(Trim(b)), String(Trim(c))]
  {
    var p := Split(s, ',');
    var t := TrimmedPieces(s);
    assert |t| == |p| == 3;
    assert p[0] == a && p[1] == b && p[2] == c;
    assert t[0] == String(Trim(p[0]));
    assert t[1] == String(Trim(p[1]));
    assert t[2] == String(Trim(p[2]));
  }

  lemma TwelveTrimmed()
    ensures Trim("12") == "12"
  {
    var s := "12";
    assert s[0] == '1' && s[|s| - 1] == '2';
    assert !IsWhitespace('1') && !IsWhitespace('2');
  }

  lemma SevenTrimmed()
    ensures Trim(" 7") == "7"
  {
    var p := "7";
    assert p[0] == '7' && !IsWhitespace('7');
    assert " "[0] == ' ';
    assert " " + p + "" == " 7";
    TrimPadded(" ", p, "");
  }

  /** `["7"]` and `"7"` both become `[7]`. */
  lemma SingleStringInArray()
    ensures NormalizePcrIds(Some(Array([String("7")]))) == Success(Ids([7]))
    ensures NormalizePcrIds(Some(String("7"))) == Success(Ids([7]))
  {
    assert Decimal(7) == "7";
    assert StringsOf([7]) == [String("7")];
    StringsAndNumbersConverge([7]);
  }

  /** `["1", "7"]` and `[1, 7]` both become `[1, 7]`. */
  lemma StringsOrNumbers()
    ensures NormalizePcrIds(Some(Array([String("1"), String("7")]))) == Success(Ids([1, 7]))
    ensures NormalizePcrIds(Ids([1, 7])) == Success(Ids([1, 7]))
  {
    assert Decimal(1) == "1" && Decimal(7) == "7";
    assert StringsOf([1, 7]) == [String("1"), String("7")];
    StringsAndNumbersConverge([1, 7]);
  }

  /** `"1,"` is cut into `"1"` and an empty piece. */
  lemma TrailingCommaPieces()
    ensures Split("1,", ',') == ["1", ""]
  {
    var pieces := ["1", ""];
    assert Join(pieces, ',') == "1," by {
      assert pieces[1..] == [""];
    }
    SplitJoin(pieces, ',');
  }

  lemma TrailingCommaTrimmed()
    ensures TrimmedPieces("1,") == [String("1"), String("")]
  {
    TrailingCommaPieces();
    OneTrimmed();
    assert Trim("") == "";
    var t := TrimmedPieces("1,");
    assert t[0] == String("1") && t[1] == String("");
  }

  lemma OneTrimmed()
    ensures Trim("1") == "1"
  {
    var s := "1";
    assert s[0] == '1' && s[|s| - 1] == '1';
    assert !IsWhitespace('1');
  }

  lemma OneThenEmpty()
    ensures ConvertElements([String("1"), String("")]) == Failure(UnparseableStringInt)
  {
    var xs := [String("1"), String("")];
    OneConverts();
    EmptyConverts();
    assert xs[1..] == [String("")];
  }

  lemma OneConverts()
    ensures ConvertElement(String("1")) == Success(Number(PosInt(1)))
  {
    OneTrimmed();
    assert Decimal(1) == "1";
    assert ConvertText(Decimal(1)) == Success(Number(PosInt(1)));
  }

  lemma EmptyConverts()
    ensures ConvertElement(String("")) == Failure(UnparseableStringInt)
  {
    assert Trim("") == "";
    NotNumericUnparseable("");
  }

  /** A trailing comma leaves an empty piece, which is unparseable. */
  lemma TrailingComma()
    ensures NormalizePcrIds(Some(String("1,"))) == Failure(UnparseableStringInt)
  {
    TrailingCommaTrimmed();
    OneThenEmpty();
    NormalizeString("1,");
  }

  /** A negative integer string is a number, but not a `u64`. */
  lemma NegativeString()
    ensures ConvertElement(String("-3")) == Failure(NonPositiveStringInt)
  {
    MinusThree();
    NegativeNonPositive("-3");
  }

  lemma MinusThree()
    ensures Trim("-3") == "-3" && IsCanonicalDigits("-3"[1..]) && WithinF64Range("-3")
  {
    var s := "-3";
    assert s[0] == '-' && s[|s| - 1] == '3';
    assert !IsWhitespace('-') && !IsWhitespace('3');
    assert s[1..] == "3";
    assert forall i :: 0 <= i < |s| ==> s[i] == '-' || s[i] == '3';
  }

  /** A word is not a number at all; neither is a decimal with a leading
      zero. */
  lemma WordString()
    ensures ConvertElement(String("abc")) == Failure(UnparseableStringInt)
  {
    AbcTrimmed();
    assert "abc"[0] == 'a';
    NotNumericUnparseable("abc");
  }

  lemma AbcTrimmed()
    ensures Trim("abc") == "abc"
  {
    var s := "abc";
    assert s[0] == 'a' && s[|s| - 1] == 'c';
    assert !IsWhitespace('a') && !IsWhitespace('c');
  }

  lemma LeadingZeroString()
    ensures ConvertElement(String("07")) == Failure(UnparseableStringInt)
  {
    ZeroSeven();
    LeadingZeroUnparseable("07");
  }

  lemma ZeroSeven()
    ensures var p := Trim("07"); |p| >= 2 && p[0] == '0' && IsDigit(p[1])
  {
    var s := "07";
    assert s[0] == '0' && s[|s| - 1] == '7';
    assert !IsWhitespace('0') && !IsWhitespace('7');
  }

  /** Elements that are neither numbers nor strings. */
  lemma BadElements()
    ensures NormalizePcrIds(Some(Array([Bool(true)]))) == Failure(InvalidValue)
    ensures NormalizePcrIds(Some(Array([Null, Number(PosInt(1))]))) == Failure(InvalidValue)
  {
    FirstFailureDecides([Bool(true)]);
    FirstFailureDecides([Null, Number(PosInt(1))]);
  }

  /** Top-level shapes that are neither arrays nor strings. */
  lemma BadTypes()
    ensures NormalizePcrIds(Some(Number(PosInt(7)))) == Failure(InvalidType)
    ensures NormalizePcrIds(Some(Object([]))) == Failure(InvalidType)
  {
  }

  const Blank := TPM2Config(None, None, None, None, None, None, None, None, None)

  /** PCR ids without a bank get "sha256". */
  lemma BankDefault()
    ensures Normalize(Blank.(pcrIds := Ids([3]))) ==
            Normalized(Success(Blank.(pcrIds := Ids([3]), pcrBank := Some("sha256"))), false)
  {
    CanonicalIsFixpoint(Ids([3]));
  }

  /** `use_policy: true` alone fills in all three policy fields. */
  lemma PolicyDefaults()
    ensures Normalize(Blank.(usePolicy := Some(true))) ==
            Normalized(Success(Blank.(usePolicy := Some(true),
                                      policyPath := Some("/boot/clevis_policy.json"),
                                      policyPubkeyPath := Some("/boot/clevis_pubkey.json"),
                                      policyRef := Some(""))), false)
  {
  }

  /** One policy field without `use_policy` warns, then fails; so does it
      with `use_policy: false`. */
  lemma PartialPolicy()
    ensures Normalize(Blank.(policyRef := Some("r"))) == Normalized(Failure(IncompletePolicy), true)
    ensures Normalize(Blank.(usePolicy := Some(false), policyPath := Some("/p"))) ==
            Normalized(Failure(IncompletePolicy), true)
  {
  }

  /** All three policy fields without `use_policy` only warn. */
  lemma CompletePolicyWithoutFlag()
    ensures var cfg := Blank.(policyPath := Some("/p"), policyPubkeyPath := Some("/k"), policyRef := Some(""));
            Normalize(cfg) == Normalized(Success(cfg), true)
  {
  }
}
