/** The pin's configuration record (`TPM2Config`), the default policy paths
    and the accessors that read the normalised PCR list back out of it. */
module Configuration {
  import opened Wrappers
  import opened Text
  import opened Json

  /** Every field is optional. `pcrIds` holds whatever JSON the user wrote
      until the normaliser rewrites it into an array of `u64` numbers. */
  datatype TPM2Config = TPM2Config(
    hash: Option<string>,
    key: Option<string>,
    pcrBank: Option<string>,
    pcrIds: Option<Json>,
    pcrDigest: Option<string>,
    usePolicy: Option<bool>,
    policyPubkeyPath: Option<string>,
    policyRef: Option<string>,
    policyPath: Option<string>)

  const DefaultPolicyPath: string := "/boot/clevis_policy.json"
  const DefaultPubkeyPath: string := "/boot/clevis_pubkey.json"
  const DefaultPolicyRef: string := ""

  /** The bank assumed when PCR ids are given without one. */
  const DefaultPcrBank: string := "sha256"

  /** The normal form of `pcr_ids`: absent, or an array of `u64` numbers.
      It is exactly what the accessors below need in order not to panic. */
  predicate IsCanonicalPcrIds(v: Option<Json>) {
    v.None? || (v.value.Array? && forall i :: 0 <= i < |v.value.items| ==> IsU64(v.value.items[i]))
  }

  /** The `u64` array that re-wraps `ids` as JSON numbers. */
  function NumbersOf(ids: seq<Uint64>): (r: seq<Json>)
    ensures |r| == |ids|
    ensures forall i :: 0 <= i < |ids| ==> r[i] == Number(PosInt(ids[i]))
  {
    seq(|ids|, i requires 0 <= i < |ids| => Number(PosInt(ids[i])))
  }

  /** `get_pcr_ids`: the PCR list as integers. Panics (here: is not
      callable) unless `pcr_ids` is in normal form. */
  function GetPcrIds(cfg: TPM2Config): (r: Option<seq<Uint64>>)
    requires IsCanonicalPcrIds(cfg.pcrIds)
    ensures r.None? <==> cfg.pcrIds.None?
    ensures r.Some? ==> cfg.pcrIds == Some(Array(NumbersOf(r.value)))
  {
    match cfg.pcrIds
    case None => None
    case Some(v) =>
      var items := v.items;
      var ids := seq(|items|, i requires 0 <= i < |items| => items[i].num.u);
      assert NumbersOf(ids) == items;
      Some(ids)
  }

  /** `get_pcr_ids` reads back exactly the list that was stored. */
  lemma GetPcrIdsOfNumbers(cfg: TPM2Config, ids: seq<Uint64>)
    requires cfg.pcrIds == Some(Array(NumbersOf(ids)))
    ensures GetPcrIds(cfg) == Some(ids)
  {
    var r := GetPcrIds(cfg).value;
    assert NumbersOf(r) == NumbersOf(ids);
    assert |r| == |ids|;
    forall i | 0 <= i < |ids| ensures r[i] == ids[i] {
      assert NumbersOf(r)[i] == NumbersOf(ids)[i];
    }
    assert r == ids;
  }

  /** `get_pcr_ids_str`: the PCR list written as comma-separated decimals.
      Same panic condition as `GetPcrIds`. */
  function GetPcrIdsStr(cfg: TPM2Config): (r: Option<string>)
    requires IsCanonicalPcrIds(cfg.pcrIds)
    ensures r.None? <==> cfg.pcrIds.None?
    ensures r.Some? ==> var ids := GetPcrIds(cfg).value;
              |ids| >= 1 ==> Split(r.value, ',') == DecimalsOf(ids)
    ensures r.Some? && GetPcrIds(cfg).value == [] ==> r.value == ""
  {
    match GetPcrIds(cfg)
    case None => None
    case Some(ids) =>
      var r := Join(DecimalsOf(ids), ',');
      DecimalsSplit(ids);
      Some(r)
  }

  /** Each id written by `u64::to_string`. */
  function DecimalsOf(ids: seq<Uint64>): (r: seq<string>)
    ensures |r| == |ids|
    ensures forall i :: 0 <= i < |ids| ==> r[i] == Decimal(ids[i])
  {
    seq(|ids|, i requires 0 <= i < |ids| => Decimal(ids[i]))
  }

  /** Decimals carry no comma, so splitting their join gives them back. */
  lemma DecimalsSplit(ids: seq<Uint64>)
    ensures |ids| >= 1 ==> Split(Join(DecimalsOf(ids), ','), ',') == DecimalsOf(ids)
  {
    if |ids| >= 1 {
      forall i | 0 <= i < |ids| ensures ',' !in DecimalsOf(ids)[i] {
        DecimalHasNoComma(ids[i]);
      }
      SplitJoin(DecimalsOf(ids), ',');
    }
  }

  /** `get_pcr_hash_alg`, `get_name_hash_alg`: the bank and name hash are
      resolved by a lookup the model takes as a parameter. */
  function PcrHashAlg<A>(cfg: TPM2Config, hashAlgOf: Option<string> -> A): A {
    hashAlgOf(cfg.pcrBank)
  }

  function NameHashAlg<A>(cfg: TPM2Config, hashAlgOf: Option<string> -> A): A {
    hashAlgOf(cfg.hash)
  }
}
