/** The policy compiler (`TryFrom<&TPM2Config> for TPMPolicyStep`): turns a
    normalised configuration into the policy tree the unlock evaluator walks. */
module Policy {
  import opened Wrappers
  import J = Json
  import opened Configuration
  import opened Normalizer

  /** The TPM hash algorithms a bank name can resolve to. */
  datatype HashingAlgorithm =
    | Sha1 | Sha256 | Sha384 | Sha512 | Sm3_256 | Sha3_256 | Sha3_384 | Sha3_512 | NullAlgorithm

  /** The evaluator's `Or` has exactly this many branches; the ones not in
      use are `NoStep`. */
  const OrArity: nat := 8

  /** A policy tree. `Authorized` is what the signed-policy constructor
      builds from a public key path, an optional key hint and an optional
      policy reference. */
  datatype Step =
    | NoStep
    | PCRs(alg: HashingAlgorithm, ids: seq<J.Uint64>, next: Step)
    | Authorized(pubkeyPath: string, keyHint: Option<string>, policyRef: Option<string>)
    | Or(branches: seq<Step>)

  /** Every `Or` in the tree has exactly `OrArity` branches. */
  predicate WellFormed(step: Step) {
    match step
    case NoStep => true
    case PCRs(_, _, next) => WellFormed(next)
    case Authorized(_, _, _) => true
    case Or(branches) => |branches| == OrArity && forall i :: 0 <= i < |branches| ==> WellFormed(branches[i])
  }

  /** The step matching the configured PCRs under the configured bank. */
  function PcrStep(cfg: TPM2Config, hashAlgOf: Option<string> -> HashingAlgorithm): (r: Step)
    requires IsCanonicalPcrIds(cfg.pcrIds) && cfg.pcrIds.Some?
    ensures r.PCRs? && r.next == NoStep && r.alg == hashAlgOf(cfg.pcrBank)
    ensures cfg.pcrIds == Some(J.Array(NumbersOf(r.ids)))
  {
    PCRs(PcrHashAlg(cfg, hashAlgOf), GetPcrIds(cfg).value, NoStep)
  }

  /** The policy a configuration compiles to. `hashAlgOf` is the name to
      algorithm lookup and `authorize` the signed-policy constructor; both
      live outside this model. Compiling reads `pcr_ids`, so it panics (here:
      is not callable) unless they are in normal form. */
  function Compile<E>(
    cfg: TPM2Config,
    hashAlgOf: Option<string> -> HashingAlgorithm,
    authorize: (string, Option<string>, Option<string>) -> Result<Step, E>
  ): (r: Result<Step, E>)
    requires IsCanonicalPcrIds(cfg.pcrIds)
    // failures come only from the signed-policy constructor, unchanged
    ensures r.Failure? ==>
              (cfg.policyPubkeyPath.Some? &&
               authorize(cfg.policyPubkeyPath.value, None, cfg.policyRef) == Failure(r.error))
    ensures cfg.policyPubkeyPath.Some? && authorize(cfg.policyPubkeyPath.value, None, cfg.policyRef).Failure? ==>
              r.Failure?
    // both: an eight-way Or of the PCR step and the authorized step
    ensures cfg.pcrIds.Some? && cfg.policyPubkeyPath.Some? && r.Success? ==>
              && r.value.Or? && |r.value.branches| == OrArity
              && r.value.branches[0] == PcrStep(cfg, hashAlgOf)
              && Success(r.value.branches[1]) == authorize(cfg.policyPubkeyPath.value, None, cfg.policyRef)
              && forall i :: 2 <= i < OrArity ==> r.value.branches[i] == NoStep
    // only PCRs
    ensures cfg.pcrIds.Some? && cfg.policyPubkeyPath.None? ==> r == Success(PcrStep(cfg, hashAlgOf))
    // only a public key: the authorized step itself
    ensures cfg.pcrIds.None? && cfg.policyPubkeyPath.Some? ==>
              r == authorize(cfg.policyPubkeyPath.value, None, cfg.policyRef)
    // neither
    ensures cfg.pcrIds.None? && cfg.policyPubkeyPath.None? ==> r == Success(NoStep)
  {
    if cfg.pcrIds.Some? && cfg.policyPubkeyPath.Some? then
      match authorize(cfg.policyPubkeyPath.value, None, cfg.policyRef)
      case Failure(e) => Failure(e)
      case Success(authorized) =>
        Success(Or([PcrStep(cfg, hashAlgOf), authorized, NoStep, NoStep, NoStep, NoStep, NoStep, NoStep]))
    else if cfg.pcrIds.Some? then
      Success(PcrStep(cfg, hashAlgOf))
    else if cfg.policyPubkeyPath.Some? then
      authorize(cfg.policyPubkeyPath.value, None, cfg.policyRef)
    else
      Success(NoStep)
  }

  /** A configuration that `normalize` accepted can always be compiled: it
      never reaches the panics in the PCR accessors. */
  lemma NormalizedCompiles(cfg: TPM2Config)
    requires Normalize(cfg).result.Success?
    ensures IsCanonicalPcrIds(Normalize(cfg).result.value.pcrIds)
    ensures var c := Normalize(cfg).result.value;
            c.pcrIds.Some? ==> GetPcrIds(c).Some? && GetPcrIdsStr(c).Some?
  {
  }

  /** Only `pcr_ids`, `pcr_bank`, `policy_pubkey_path` and `policy_ref`
      matter: the policy path, `use_policy`, `hash`, `key` and `pcr_digest`
      do not change the compiled policy. */
  lemma CompileIgnoresOtherFields<E>(
    cfg: TPM2Config,
    other: TPM2Config,
    hashAlgOf: Option<string> -> HashingAlgorithm,
    authorize: (string, Option<string>, Option<string>) -> Result<Step, E>)
    requires IsCanonicalPcrIds(cfg.pcrIds)
    requires other.pcrIds == cfg.pcrIds && other.pcrBank == cfg.pcrBank
    requires other.policyPubkeyPath == cfg.policyPubkeyPath && other.policyRef == cfg.policyRef
    ensures Compile(other, hashAlgOf, authorize) == Compile(cfg, hashAlgOf, authorize)
  {
  }

  /** The compiled tree meets the evaluator's fixed-arity contract whenever
      the signed-policy constructor's steps do. */
  lemma CompileWellFormed<E>(
    cfg: TPM2Config,
    hashAlgOf: Option<string> -> HashingAlgorithm,
    authorize: (string, Option<string>, Option<string>) -> Result<Step, E>)
    requires IsCanonicalPcrIds(cfg.pcrIds)
    requires cfg.policyPubkeyPath.Some? && authorize(cfg.policyPubkeyPath.value, None, cfg.policyRef).Success? ==>
               WellFormed(authorize(cfg.policyPubkeyPath.value, None, cfg.policyRef).value)
    ensures Compile(cfg, hashAlgOf, authorize).Success? ==> WellFormed(Compile(cfg, hashAlgOf, authorize).value)
  {
  }
}
