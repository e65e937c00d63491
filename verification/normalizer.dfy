/** The configuration normaliser: `TPM2Config::normalize_pcr_ids` rewrites
    the loosely typed `pcr_ids` field into an array of `u64` numbers, and
    `TPM2Config::normalize` then defaults the PCR bank and the policy fields
    and checks that the policy fields come all together or not at all. */
module Normalizer {
  import opened Wrappers
  import opened Text
  import opened Json
  import opened Configuration

  /** The normaliser's failures, one per message it can report. */
  datatype NormError =
    | NonPositiveStringInt
    | UnparseableStringInt
    | NonPositiveInt
    | InvalidValue
    | InvalidType
    | IncompletePolicy

  function Message(e: NormError): string {
    match e
    case NonPositiveStringInt => "Non-positive string int"
    case UnparseableStringInt => "Unparseable string int"
    case NonPositiveInt => "Non-positive int"
    case InvalidValue => "Invalid value in pcr_ids"
    case InvalidType => "Invalid type"
    case IncompletePolicy => "Not all of policy pubkey, path and ref are specified"
  }

  /** A string element is accepted exactly when, once trimmed, it is a
      decimal integer without sign or superfluous leading zero that fits a
      `u64`. */
  predicate IsU64Text(t: string) {
    var p := Trim(t);
    IsCanonicalDigits(p) && DigitsValue(p) < Two64
  }

  /** The number an accepted string element stands for. */
  function U64OfText(t: string): Uint64
    requires IsU64Text(t)
  {
    DigitsValue(Trim(t))
  }

  // ---------------------------------------------------------------------
  // normalize_pcr_ids, one rewrite per function

  /** First rewrite: a one-element array holding a string becomes that
      string. */
  function CollapseSingleString(v: Option<Json>): Option<Json> {
    if v.Some? && v.value.Array? && |v.value.items| == 1 && v.value.items[0].String?
    then Some(v.value.items[0])
    else v
  }

  /** The pieces of `s` between commas, each trimmed, as JSON strings. */
  function TrimmedPieces(s: string): (r: seq<Json>)
    ensures |r| == Count(s, ',') + 1
    ensures forall i :: 0 <= i < |r| ==> r[i] == String(Trim(Split(s, ',')[i]))
  {
    var pieces := Split(s, ',');
    seq(|pieces|, i requires 0 <= i < |pieces| => String(Trim(pieces[i])))
  }

  /** Second rewrite: a string becomes the array of its trimmed comma
      pieces. */
  function SplitCommaString(v: Option<Json>): Option<Json> {
    if v.Some? && v.value.String? then Some(Array(TrimmedPieces(v.value.str))) else v
  }

  /** A trimmed string element, parsed as a JSON number that must be a
      `u64`. */
  function ConvertText(p: string): (r: Result<Json, NormError>)
    ensures r.Success? <==> IsCanonicalDigits(p) && DigitsValue(p) < Two64
    ensures r.Success? ==> r.value == Number(PosInt(DigitsValue(p)))
    ensures r.Failure? ==> r.error in {NonPositiveStringInt, UnparseableStringInt}
    ensures r == Failure(UnparseableStringInt) <==> ParseNumber(p).None?
  {
    match ParseNumber(p)
    case Some(n) => if n.PosInt? then Success(Number(n)) else Failure(NonPositiveStringInt)
    case None => Failure(UnparseableStringInt)
  }

  /** Third rewrite, on one element: a string is trimmed and parsed as a
      JSON number, a number is kept; either must be a `u64`. */
  function ConvertElement(x: Json): (r: Result<Json, NormError>)
    ensures r.Success? ==> IsU64(r.value)
    ensures r.Failure? ==> r.error in {NonPositiveStringInt, UnparseableStringInt, NonPositiveInt, InvalidValue}
    ensures x.Number? ==> r == (if x.num.PosInt? then Success(x) else Failure(NonPositiveInt))
    ensures x.String? ==> (r.Success? <==> IsU64Text(x.str))
    ensures x.String? && r.Success? ==> r.value == Number(PosInt(U64OfText(x.str)))
    ensures x.String? && r.Failure? ==> r.error in {NonPositiveStringInt, UnparseableStringInt}
    ensures !x.Number? && !x.String? ==> r == Failure(InvalidValue)
  {
    match x
    case String(t) => ConvertText(Trim(t))
    case Number(n) => if n.PosInt? then Success(x) else Failure(NonPositiveInt)
    case _ => Failure(InvalidValue)
  }

  /** Which of the two string errors a rejected string element gets. It is
      "Unparseable string int" exactly when the trimmed text is not a JSON
      number: in particular an empty piece, or anything that does not start
      like a number. A number that is not a `u64` gets "Non-positive string
      int": a negative integer, an integer of 2^64 or more, a fraction, or
      `-0`. These last claims are made within `WithinF64Range`, since
      serde_json turns a number that overflows `f64` into a parse error. */
  lemma StringElementErrors(t: string)
    ensures ConvertElement(String(t)) == Failure(UnparseableStringInt) <==> ParseNumber(Trim(t)).None?
    ensures var p := Trim(t);
            p == [] || !(IsDigit(p[0]) || p[0] == '-') ==> ConvertElement(String(t)) == Failure(UnparseableStringInt)
    ensures var p := Trim(t);
            |p| >= 2 && p[0] == '-' && IsCanonicalDigits(p[1..]) && WithinF64Range(p) ==>
              ConvertElement(String(t)) == Failure(NonPositiveStringInt)
    ensures var p := Trim(t);
            IsCanonicalDigits(p) && DigitsValue(p) >= Two64 && WithinF64Range(p) ==>
              ConvertElement(String(t)) == Failure(NonPositiveStringInt)
    ensures var p := Trim(t);
            LexNumber(p).Some? && LexNumber(p).value.fractional && WithinF64Range(p) ==>
              ConvertElement(String(t)) == Failure(NonPositiveStringInt)
  {
    var p := Trim(t);
    UnparseableIffNotNumber(t);
    if p == [] || !(IsDigit(p[0]) || p[0] == '-') {
      NotNumericUnparseable(t);
    }
    if |p| >= 2 && p[0] == '-' && IsCanonicalDigits(p[1..]) && WithinF64Range(p) {
      NegativeNonPositive(t);
    }
    if IsCanonicalDigits(p) && DigitsValue(p) >= Two64 && WithinF64Range(p) {
      TooLargeNonPositive(t);
    }
    if LexNumber(p).Some? && LexNumber(p).value.fractional && WithinF64Range(p) {
      FractionNonPositive(t);
    }
  }

  lemma UnparseableIffNotNumber(t: string)
    ensures ConvertElement(String(t)) == Failure(UnparseableStringInt) <==> ParseNumber(Trim(t)).None?
  {
  }

  lemma NotNumericUnparseable(t: string)
    requires var p := Trim(t); p == [] || !(IsDigit(p[0]) || p[0] == '-')
    ensures ConvertElement(String(t)) == Failure(UnparseableStringInt)
  {
    assert ParseNumber(Trim(t)).None?;
  }

  lemma NegativeNonPositive(t: string)
    requires var p := Trim(t); |p| >= 2 && p[0] == '-' && IsCanonicalDigits(p[1..]) && WithinF64Range(p)
    ensures ConvertElement(String(t)) == Failure(NonPositiveStringInt)
  {
    var n := ParseNumber(Trim(t));
    assert n.Some? && !n.value.PosInt?;
  }

  lemma TooLargeNonPositive(t: string)
    requires var p := Trim(t); IsCanonicalDigits(p) && DigitsValue(p) >= Two64 && WithinF64Range(p)
    ensures ConvertElement(String(t)) == Failure(NonPositiveStringInt)
  {
    assert ParseNumber(Trim(t)).Some?;
  }

  lemma FractionNonPositive(t: string)
    requires var p := Trim(t); LexNumber(p).Some? && LexNumber(p).value.fractional && WithinF64Range(p)
    ensures ConvertElement(String(t)) == Failure(NonPositiveStringInt)
  {
    FractionalIsFloat(Trim(t));
  }

  /** A piece with a leading zero followed by a digit is unparseable. */
  lemma LeadingZeroUnparseable(t: string)
    requires var p := Trim(t); |p| >= 2 && p[0] == '0' && IsDigit(p[1])
    ensures ConvertElement(String(t)) == Failure(UnparseableStringInt)
  {
    LeadingZeroRejected(Trim(t));
  }

  /** Third rewrite, on the whole array: every element converted, in order;
      the first element that fails decides the error. */
  function ConvertElements(xs: seq<Json>): (r: Result<seq<Json>, NormError>)
    ensures r.Success? <==> forall i :: 0 <= i < |xs| ==> ConvertElement(xs[i]).Success?
    ensures r.Success? ==> |r.value| == |xs|
    ensures r.Success? ==> forall i :: 0 <= i < |xs| ==> ConvertElement(xs[i]) == Success(r.value[i])
    ensures r.Failure? ==>
              exists i :: (0 <= i < |xs| && ConvertElement(xs[i]) == Failure(r.error) &&
                           forall j :: 0 <= j < i ==> ConvertElement(xs[j]).Success?)
  {
    if |xs| == 0 then Success([])
    else
      match ConvertElement(xs[0])
      case Failure(e) => Failure(e)
      case Success(y) =>
        match ConvertElements(xs[1..])
        case Failure(e) =>
          assert exists i :: 1 <= i < |xs| && ConvertElement(xs[i]) == Failure(e) &&
                   forall j :: 0 <= j < i ==> ConvertElement(xs[j]).Success? by {
            var k :| 0 <= k < |xs| - 1 && ConvertElement(xs[1..][k]) == Failure(e) &&
                     forall j :: 0 <= j < k ==> ConvertElement(xs[1..][j]).Success?;
            assert ConvertElement(xs[k + 1]) == Failure(e);
            assert forall j :: 1 <= j < k + 1 ==> xs[j] == xs[1..][j - 1];
          }
          Failure(e)
        case Success(ys) =>
          assert forall i :: 1 <= i < |xs| ==> xs[i] == xs[1..][i - 1] && ([y] + ys)[i] == ys[i - 1];
          Success([y] + ys)
  }

  /** Third rewrite: an array has its elements converted; any other shape
      passes through. */
  function ConvertArray(v: Option<Json>): (r: Result<Option<Json>, NormError>)
    ensures r.Success? && v.Some? && v.value.Array? ==> IsCanonicalPcrIds(r.value)
    ensures !(v.Some? && v.value.Array?) ==> r == Success(v)
    ensures r.Success? && v.Some? && v.value.Array? ==> r.value.Some? && r.value.value.Array?
    ensures r.Failure? ==> v.Some? && v.value.Array?
    ensures r.Failure? ==> r.error in {NonPositiveStringInt, UnparseableStringInt, NonPositiveInt, InvalidValue}
  {
    if v.Some? && v.value.Array? then
      match ConvertElements(v.value.items)
      case Success(ys) =>
        assert forall i :: 0 <= i < |ys| ==> ConvertElement(v.value.items[i]) == Success(ys[i]);
        Success(Some(Array(ys)))
      case Failure(e) =>
        Failure(e)
    else Success(v)
  }

  /** `normalize_pcr_ids`: the three rewrites, then the final shape check.
      On success the field is in normal form, and present exactly when it was
      present before. */
  function NormalizePcrIds(v: Option<Json>): (r: Result<Option<Json>, NormError>)
    ensures r.Success? ==> IsCanonicalPcrIds(r.value) && (r.value.Some? <==> v.Some?)
    ensures v.None? ==> r == Success(None)
    ensures v.Some? && (v.value.Null? || v.value.Bool? || v.value.Number? || v.value.Object?) ==>
              r == Failure(InvalidType)
    ensures r == Failure(InvalidType) ==> v.Some? && !v.value.String? && !v.value.Array?
    ensures r.Failure? ==> r.error != IncompletePolicy
  {
    var collapsed := CollapseSingleString(v);
    var split := SplitCommaString(collapsed);
    assert split.Some? <==> v.Some?;
    assert split.Some? && !split.value.Array? ==> v.Some? && !v.value.String? && !v.value.Array?;
    match ConvertArray(split)
    case Failure(e) => Failure(e)
    case Success(converted) =>
      if converted.None? || converted.value.Array? then Success(converted) else Failure(InvalidType)
  }

  // ---------------------------------------------------------------------
  // normalize

  predicate AnyPolicyField(c: TPM2Config) {
    c.policyPubkeyPath.Some? || c.policyPath.Some? || c.policyRef.Some?
  }

  predicate AllPolicyFields(c: TPM2Config) {
    c.policyPubkeyPath.Some? && c.policyPath.Some? && c.policyRef.Some?
  }

  /** The invariants a normalised configuration keeps. */
  predicate IsNormalized(c: TPM2Config) {
    && IsCanonicalPcrIds(c.pcrIds)
    && (c.pcrIds.Some? ==> c.pcrBank.Some?)
    && (AnyPolicyField(c) ==> AllPolicyFields(c))
    && (c.usePolicy == Some(true) ==> AllPolicyFields(c))
  }

  /** The outcome of `normalize`, with whether it printed its warning about
      policy fields given without `use_policy: true`. */
  datatype Normalized = Normalized(result: Result<TPM2Config, NormError>, warned: bool)

  /** How `normalize` sets every field but `pcr_ids` in its result `c`:
      `hash`, `key`, `pcr_digest` and `use_policy` are kept; a given bank is
      kept and a missing one becomes "sha256" when there are PCR ids; under
      `use_policy: true` each missing policy field gets its default and the
      given ones are kept, otherwise the policy fields are kept as they are. */
  predicate FillsIn(cfg: TPM2Config, c: TPM2Config) {
    && c.hash == cfg.hash && c.key == cfg.key && c.pcrDigest == cfg.pcrDigest
    && c.usePolicy == cfg.usePolicy
    && (cfg.pcrBank.Some? ==> c.pcrBank == cfg.pcrBank)
    && (cfg.pcrBank.None? ==> c.pcrBank == (if c.pcrIds.Some? then Some(DefaultPcrBank) else None))
    && (cfg.usePolicy == Some(true) ==>
          && c.policyPath == Some(cfg.policyPath.GetOr(DefaultPolicyPath))
          && c.policyPubkeyPath == Some(cfg.policyPubkeyPath.GetOr(DefaultPubkeyPath))
          && c.policyRef == Some(cfg.policyRef.GetOr(DefaultPolicyRef)))
    && (cfg.usePolicy != Some(true) ==>
          && c.policyPath == cfg.policyPath
          && c.policyPubkeyPath == cfg.policyPubkeyPath
          && c.policyRef == cfg.policyRef)
  }

  /** Policy fields given in part, with nothing to default them: the one
      configuration error besides a bad `pcr_ids`. */
  predicate IsPartialPolicy(cfg: TPM2Config) {
    cfg.usePolicy != Some(true) && AnyPolicyField(cfg) && !AllPolicyFields(cfg)
  }

  /** `normalize` once `pcr_ids` has been normalised to `ids`: the bank
      default, the policy defaults or warning, and the all-or-nothing check. */
  function CompleteFields(cfg: TPM2Config, ids: Option<Json>): (out: Normalized)
    requires IsCanonicalPcrIds(ids)
    ensures out.result.Failure? <==> IsPartialPolicy(cfg)
    ensures out.result.Failure? ==> out.result.error == IncompletePolicy
    ensures out.warned <==> cfg.usePolicy != Some(true) && AnyPolicyField(cfg)
    ensures out.result.Success? ==>
              IsNormalized(out.result.value) && out.result.value.pcrIds == ids && FillsIn(cfg, out.result.value)
  {
    var bank := if ids.Some? && cfg.pcrBank.None? then Some(DefaultPcrBank) else cfg.pcrBank;
    var withIds := cfg.(pcrIds := ids, pcrBank := bank);
    var defaulted :=
      if cfg.usePolicy == Some(true) then
        withIds.(policyPath := Some(cfg.policyPath.GetOr(DefaultPolicyPath)),
                 policyPubkeyPath := Some(cfg.policyPubkeyPath.GetOr(DefaultPubkeyPath)),
                 policyRef := Some(cfg.policyRef.GetOr(DefaultPolicyRef)))
      else withIds;
    var warned := cfg.usePolicy != Some(true) && AnyPolicyField(withIds);
    if AnyPolicyField(defaulted) && !AllPolicyFields(defaulted)
    then Normalized(Failure(IncompletePolicy), warned)
    else Normalized(Success(defaulted), warned)
  }

  /** `normalize`: a bad `pcr_ids` fails first and without a warning; then
      a partial set of policy fields fails; otherwise the result is
      normalised, its `pcr_ids` is what `normalize_pcr_ids` made of them, and
      the other fields are filled in as `FillsIn` says. The warning is printed
      whenever `pcr_ids` was fine and policy fields were given without
      `use_policy: true`, even if the all-or-nothing check then fails. */
  function Normalize(cfg: TPM2Config): (out: Normalized)
    ensures NormalizePcrIds(cfg.pcrIds).Failure? ==>
              out == Normalized(Failure(NormalizePcrIds(cfg.pcrIds).error), false)
    ensures out.result == Failure(IncompletePolicy) <==>
              NormalizePcrIds(cfg.pcrIds).Success? && IsPartialPolicy(cfg)
    ensures out.result.Success? <==> NormalizePcrIds(cfg.pcrIds).Success? && !IsPartialPolicy(cfg)
    ensures out.warned <==>
              NormalizePcrIds(cfg.pcrIds).Success? && cfg.usePolicy != Some(true) && AnyPolicyField(cfg)
    ensures out.result.Success? ==> var c := out.result.value;
              IsNormalized(c) && NormalizePcrIds(cfg.pcrIds) == Success(c.pcrIds) && FillsIn(cfg, c)
  {
    var ids := NormalizePcrIds(cfg.pcrIds);
    if ids.Failure? then Normalized(Failure(ids.error), false)
    else CompleteFields(cfg, ids.value)
  }
}
