/** What the normaliser promises beyond one call: the input shapes that
    converge, the errors each bad input gets, idempotence, and the round trip
    through the comma-separated form. */
module NormalizerProperties {
  import opened Wrappers
  import opened Text
  import opened Json
  import opened Configuration
  import opened Normalizer

  /** The ids, each written as a decimal string. */
  function StringsOf(ids: seq<Uint64>): (r: seq<Json>)
    ensures |r| == |ids|
    ensures forall i :: 0 <= i < |ids| ==> r[i] == String(Decimal(ids[i]))
  {
    seq(|ids|, i requires 0 <= i < |ids| => String(Decimal(ids[i])))
  }

  /** A list of converted elements as the value of `pcr_ids`. */
  function AsPcrIds(r: Result<seq<Json>, NormError>): Result<Option<Json>, NormError> {
    match r
    case Success(ys) => Success(Some(Array(ys)))
    case Failure(e) => Failure(e)
  }

  /** A string goes through the second and third rewrites. */
  lemma NormalizeString(s: string)
    ensures NormalizePcrIds(Some(String(s))) == AsPcrIds(ConvertElements(TrimmedPieces(s)))
  {
    var v := Some(String(s));
    assert CollapseSingleString(v) == v;
    assert SplitCommaString(v) == Some(Array(TrimmedPieces(s)));
  }

  /** An array other than a single string goes through the third rewrite
      only. */
  lemma NormalizeArray(xs: seq<Json>)
    requires !(|xs| == 1 && xs[0].String?)
    ensures NormalizePcrIds(Some(Array(xs))) == AsPcrIds(ConvertElements(xs))
  {
  }

  /** A one-element array holding a string behaves exactly like the string. */
  lemma SingletonStringIsString(s: string)
    ensures NormalizePcrIds(Some(Array([String(s)]))) == NormalizePcrIds(Some(String(s)))
  {
  }

  /** A one-element array holding a number is not collapsed. */
  lemma SingletonNumberStaysArray(n: JsonNumber)
    ensures NormalizePcrIds(Some(Array([Number(n)]))) ==
            if n.PosInt? then Success(Some(Array([Number(n)]))) else Failure(NonPositiveInt)
  {
    var r := ConvertElements([Number(n)]);
    if r.Success? {
      assert ConvertElement([Number(n)][0]) == Success(r.value[0]);
      assert r.value == [Number(n)];
    }
  }

  /** A string is cut at every comma; the pieces, trimmed, must all be `u64`
      decimals, and the result lists their values in order, one per piece.
      The first bad piece decides the error. */
  lemma {:induction false} StringShape(s: string)
    ensures var r := NormalizePcrIds(Some(String(s)));
            var pieces := Split(s, ',');
            && (r.Success? <==> forall i :: 0 <= i < |pieces| ==> IsU64Text(pieces[i]))
            && (r.Success? ==> r.value.Some? && r.value.value.Array? &&
                               |r.value.value.items| == Count(s, ',') + 1 &&
                               forall i :: 0 <= i < |pieces| ==>
                                 r.value.value.items[i] == Number(PosInt(U64OfText(pieces[i]))))
            && (r.Failure? ==> exists i :: 0 <= i < |pieces| &&
                                 ConvertElement(String(pieces[i])) == Failure(r.error) &&
                                 forall j :: 0 <= j < i ==> IsU64Text(pieces[j]))
  {
    StringPieces(s);
    TextsShape(Split(s, ','));
  }

  /** The pieces need not be trimmed twice: converting the raw comma pieces
      gives the same result. */
  lemma StringPieces(s: string)
    ensures NormalizePcrIds(Some(String(s))) == AsPcrIds(ConvertElements(StringsOfText(Split(s, ','))))
  {
    var pieces := Split(s, ',');
    var elems := TrimmedPieces(s);
    var raw := StringsOfText(pieces);
    NormalizeString(s);
    forall i | 0 <= i < |pieces|
      ensures ConvertElement(elems[i]) == ConvertElement(raw[i])
    {
      assert elems[i] == String(Trim(pieces[i])) && raw[i] == String(pieces[i]);
      ConvertTrimmed(pieces[i]);
    }
    ConvertElementsCongruent(elems, raw);
  }

  /** Converting an array of strings, stated on the strings. */
  lemma TextsShape(ts: seq<string>)
    ensures var r := AsPcrIds(ConvertElements(StringsOfText(ts)));
            && (r.Success? <==> forall i :: 0 <= i < |ts| ==> IsU64Text(ts[i]))
            && (r.Success? ==> r.value.Some? && r.value.value.Array? &&
                               |r.value.value.items| == |ts| &&
                               forall i :: 0 <= i < |ts| ==>
                                 r.value.value.items[i] == Number(PosInt(U64OfText(ts[i]))))
            && (r.Failure? ==> exists i :: 0 <= i < |ts| &&
                                 ConvertElement(String(ts[i])) == Failure(r.error) &&
                                 forall j :: 0 <= j < i ==> IsU64Text(ts[j]))
  {
    var raw := StringsOfText(ts);
    var r := ConvertElements(raw);
    forall i | 0 <= i < |ts|
      ensures ConvertElement(raw[i]).Success? <==> IsU64Text(ts[i])
    {
      assert raw[i] == String(ts[i]);
    }
    if r.Success? {
      assert AsPcrIds(r) == Success(Some(Array(r.value)));
      forall i | 0 <= i < |ts|
        ensures r.value[i] == Number(PosInt(U64OfText(ts[i])))
      {
        assert raw[i] == String(ts[i]);
        assert ConvertElement(raw[i]) == Success(r.value[i]);
      }
    } else {
      assert AsPcrIds(r) == Failure(r.error);
      var k :| 0 <= k < |raw| && ConvertElement(raw[k]) == Failure(r.error) &&
               forall j :: 0 <= j < k ==> ConvertElement(raw[j]).Success?;
      assert raw[k] == String(ts[k]);
      assert forall j :: 0 <= j < k ==> IsU64Text(ts[j]);
    }
  }

  /** The texts as JSON strings. */
  function StringsOfText(ts: seq<string>): (r: seq<Json>)
    ensures |r| == |ts|
    ensures forall i :: 0 <= i < |ts| ==> r[i] == String(ts[i])
  {
    seq(|ts|, i requires 0 <= i < |ts| => String(ts[i]))
  }

  /** Arrays whose elements convert alike convert alike. */
  lemma {:induction false} ConvertElementsCongruent(xs: seq<Json>, ys: seq<Json>)
    requires |xs| == |ys|
    requires forall i :: 0 <= i < |xs| ==> ConvertElement(xs[i]) == ConvertElement(ys[i])
    ensures ConvertElements(xs) == ConvertElements(ys)
  {
    if |xs| > 0 {
      ConvertElementsCongruent(xs[1..], ys[1..]);
    }
  }

  /** Trimming a string element before converting it changes nothing. */
  lemma ConvertTrimmed(p: string)
    ensures ConvertElement(String(Trim(p))) == ConvertElement(String(p))
  {
    TrimIdempotent(p);
    SameTrimSameElement(Trim(p), p);
  }

  /** Whitespace around an element string does not change how it
      converts. */
  lemma PaddingIgnored(before: string, p: string, after: string)
    requires AllWhitespace(before) && AllWhitespace(after)
    ensures ConvertElement(String(before + Trim(p) + after)) == ConvertElement(String(p))
  {
    TrimPadded(before, Trim(p), after);
    SameTrimSameElement(before + Trim(p) + after, p);
  }

  lemma SameTrimSameElement(p: string, q: string)
    requires Trim(p) == Trim(q)
    ensures ConvertElement(String(p)) == ConvertElement(String(q))
  {
  }

  /** An array (other than one holding a single string) keeps its length and
      order: each number is kept, each string replaced by the value it
      spells. The first bad element decides the error. */
  lemma ArrayShape(xs: seq<Json>)
    requires !(|xs| == 1 && xs[0].String?)
    ensures var r := NormalizePcrIds(Some(Array(xs)));
            && (r.Success? <==> forall i :: 0 <= i < |xs| ==> ConvertElement(xs[i]).Success?)
            && (r.Success? ==> r.value.Some? && r.value.value.Array? &&
                               |r.value.value.items| == |xs| &&
                               forall i :: 0 <= i < |xs| ==>
                                 r.value.value.items[i] ==
                                   if xs[i].Number? then xs[i] else Number(PosInt(U64OfText(xs[i].str))))
            && (r.Failure? ==> exists i :: 0 <= i < |xs| &&
                                 ConvertElement(xs[i]) == Failure(r.error) &&
                                 forall j :: 0 <= j < i ==> ConvertElement(xs[j]).Success?)
  {
  }

  /** The first element that fails decides the error, whatever follows
      it. */
  lemma FirstFailureDecides(xs: seq<Json>)
    requires |xs| >= 1 && ConvertElement(xs[0]).Failure?
    requires !(|xs| == 1 && xs[0].String?)
    ensures NormalizePcrIds(Some(Array(xs))) == Failure(ConvertElement(xs[0]).error)
  {
    NormalizeArray(xs);
  }

  /** A list already in normal form is left as it is. */
  lemma CanonicalIsFixpoint(v: Option<Json>)
    requires IsCanonicalPcrIds(v)
    ensures NormalizePcrIds(v) == Success(v)
  {
    if v.Some? {
      var xs := v.value.items;
      if |xs| == 1 {
        assert !xs[0].String?;
      }
      var r := ConvertElements(xs);
      assert r.Success?;
      assert r.value == xs;
    }
  }

  /** The accepted shapes converge: an array of decimal strings and the array
      of the numbers they spell normalise to the same list, in the same order
      and with the same repetitions. */
  lemma {:induction false} StringsAndNumbersConverge(ids: seq<Uint64>)
    ensures NormalizePcrIds(Some(Array(StringsOf(ids)))) == Success(Some(Array(NumbersOf(ids))))
    ensures NormalizePcrIds(Some(Array(NumbersOf(ids)))) == Success(Some(Array(NumbersOf(ids))))
  {
    CanonicalIsFixpoint(Some(Array(NumbersOf(ids))));
    var xs := StringsOf(ids);
    ConvertDecimals(ids);
    if |ids| == 1 {
      var d := Decimal(ids[0]);
      SingleDecimalPieces(ids[0]);
      assert TrimmedPieces(d) == xs;
      SingletonStringIsString(d);
      NormalizeString(d);
    } else {
      NormalizeArray(xs);
    }
  }

  /** A single decimal is one piece, already trimmed. */
  lemma SingleDecimalPieces(n: Uint64)
    ensures TrimmedPieces(Decimal(n)) == [String(Decimal(n))]
  {
    var d := Decimal(n);
    DecimalHasNoComma(n);
    SplitWithoutSeparator(d, ',');
    DecimalIsTrimmed(n);
    assert TrimmedPieces(d)[0] == String(Trim(d));
  }

  /** Decimal strings convert to the numbers they spell. */
  lemma ConvertDecimals(ids: seq<Uint64>)
    ensures ConvertElements(StringsOf(ids)) == Success(NumbersOf(ids))
  {
    var xs := StringsOf(ids);
    forall i | 0 <= i < |ids| ensures ConvertElement(xs[i]) == Success(Number(PosInt(ids[i]))) {
      DecimalIsTrimmed(ids[i]);
    }
    var r := ConvertElements(xs);
    assert r.Success?;
    assert r.value == NumbersOf(ids);
  }

  /** `get_pcr_ids_str` then `normalize_pcr_ids` gives back the list, as long
      as it is not empty (the empty list is written as `""`, which does not
      parse). */
  lemma {:induction false} PcrIdsStrRoundTrip(cfg: TPM2Config)
    requires IsCanonicalPcrIds(cfg.pcrIds)
    requires cfg.pcrIds.Some? && |cfg.pcrIds.value.items| >= 1
    ensures NormalizePcrIds(Some(String(GetPcrIdsStr(cfg).value))) == Success(cfg.pcrIds)
  {
    var ids := GetPcrIds(cfg).value;
    assert cfg.pcrIds == Some(Array(NumbersOf(ids)));
    var s := GetPcrIdsStr(cfg).value;
    assert Split(s, ',') == DecimalsOf(ids);
    var t := TrimmedPieces(s);
    forall i | 0 <= i < |ids| ensures t[i] == StringsOf(ids)[i] {
      DecimalIsTrimmed(ids[i]);
    }
    assert t == StringsOf(ids);
    NormalizeString(s);
    ConvertDecimals(ids);
  }

  /** The empty list does not survive the round trip. */
  lemma EmptyStringIsUnparseable()
    ensures NormalizePcrIds(Some(String(""))) == Failure(UnparseableStringInt)
  {
    assert TrimmedPieces("") == [String("")];
  }

  /** `normalize` is idempotent: a normalised configuration normalises to
      itself. */
  lemma NormalizeIdempotent(cfg: TPM2Config)
    requires Normalize(cfg).result.Success?
    ensures var c := Normalize(cfg).result.value; Normalize(c).result == Success(c)
  {
    NormalizedIsFixpoint(Normalize(cfg).result.value);
  }

  /** The normalised configurations are exactly the fixed points of
      `normalize`. */
  lemma NormalizedIsFixpoint(c: TPM2Config)
    ensures IsNormalized(c) <==> Normalize(c).result == Success(c)
  {
    if IsNormalized(c) {
      CanonicalIsFixpoint(c.pcrIds);
    }
  }
}
