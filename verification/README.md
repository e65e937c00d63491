# clevis-pin-tpm2 configuration core, in Dafny

This project models the configuration core of clevis-pin-tpm2, a Clevis pin
that seals secrets to a TPM2. The model covers four things:

- **The configuration record.** `TPM2Config` holds its nine optional fields.
  `pcr_ids` is an untyped JSON value.
- **`normalize_pcr_ids`.** It rewrites `pcr_ids` in three steps. A
  one-string array collapses to the string. A string is split at commas and
  each piece trimmed. Each element is then converted to a `u64` JSON number.
  The first bad element decides the error.
- **`normalize`.** It fills in the default PCR bank and the policy defaults.
  It warns about policy fields given without `use_policy: true`, and
  rejects a partial set of policy fields.
- **Reading the result back.** `get_pcr_ids`, `get_pcr_ids_str`, the policy
  compiler (`TryFrom<&TPM2Config> for TPMPolicyStep`) and the mode selection
  in `get_mode_and_cfg`.

Modules follow the program's structure:

- `Wrappers`: `Option` and `Result`.
- `Text`: Rust's `str::trim`, `split(',')`, `join(",")` and
  `u64::to_string`.
- `Json`: `serde_json::Value`, `serde_json::Number`, and parsing a string as
  a JSON number.
- `Configuration`: the record, its constants and its accessors.
- `Normalizer`: `normalize_pcr_ids` and `normalize`.
- `NormalizerProperties`: what the normaliser guarantees over all inputs.
- `Policy`: the policy compiler.
- `Cli`: `get_mode_and_cfg`.
- `Examples`: the accepted input shapes and the error cases, worked through.

The main properties:

- **Convergence.** Each accepted input shape normalises to the list of ids
  it spells, with order and repetitions kept: `"1, 7,12"` gives
  `[1, 7, 12]`, `["7"]` gives `[7]`, and `["1","7"]` and `[1,7]` both give
  `[1, 7]`.
- **Round trip.** Writing a list with `get_pcr_ids_str` and normalising the
  string gives the list back, unless the list is empty.
- **Fixed points.** The normalised configurations are exactly the fixed
  points of `normalize`, so `normalize` is idempotent.
- **Errors.** Each error is attributed to the input that causes it, and the
  first bad element decides which error is reported.
- **Compilation.** A normalised configuration never reaches the accessors'
  panics; compiling it fails only when the signed-policy constructor fails.
  The compiled tree has the eight-way `Or` the evaluator expects.

`normalize_pcr_ids` parses each string element as a `serde_json::Number`,
with the JSON number grammar of section 6 of RFC 8259 (src/cli.rs:165). So
`"07"` and `"+7"` are "Unparseable string int". `"1.0"`, `"1e3"` and `"-0"`
are numbers but not `u64`, so they are "Non-positive string int".

## Model

| member | source | states |
|---|---|---|
| Normalizer.NormalizePcrIds | src/cli.rs:141-195 | A success is in canonical form: absent, or an array of `u64` numbers. `pcr_ids` is present afterwards exactly when it was before. Absence succeeds unchanged. A null, boolean, number or object is "Invalid type", and that error arises from nothing else. The policy error never arises here. |
| Normalizer.ConvertText | src/cli.rs:164-174 | A trimmed string element converts exactly when it is canonical decimal digits below 2^64, and then to that value. Otherwise the error is "Unparseable string int" exactly when the text is not a JSON number, and "Non-positive string int" when it is one. |
| Normalizer.ConvertElement | src/cli.rs:163-183 | A number is kept when it is a `u64` and is "Non-positive int" otherwise. A string converts exactly when its trimmed text spells a `u64`, and then to that value. Any other element is "Invalid value in pcr_ids". |
| Normalizer.StringElementErrors | src/cli.rs:164-174 | Sorts string elements by error. "Unparseable string int" exactly when the trimmed text is not a JSON number, which includes blank and non-numeric text. "Non-positive string int" for a negative integer, an integer of 2^64 or more, or a fraction or exponent. These three are stated within the f64 range. |
| Normalizer.LeadingZeroUnparseable | src/cli.rs:165-173 | A trimmed element with a leading zero followed by a digit is "Unparseable string int". |
| Normalizer.ConvertElements | src/cli.rs:160-186 | The conversion succeeds exactly when every element converts. It then keeps length and order, with each element's own conversion at its position. A failure carries the error of some element all of whose predecessors converted: the first failure decides. |
| Normalizer.ConvertArray | src/cli.rs:159-187 | Only arrays are touched. A converted array is canonical. A failure is one of the four element errors. |
| Normalizer.CompleteFields | src/cli.rs:109-138 | Fails exactly on a partial set of policy fields without `use_policy: true`, with the policy error. Warns exactly when policy fields are given without `use_policy: true`. A success is normalised, keeps the given `pcr_ids`, and fills in the other fields as `FillsIn` describes. |
| Normalizer.Normalize | src/cli.rs:107-139 | A bad `pcr_ids` fails with its own error and no warning. Otherwise it fails exactly on a partial policy, and succeeds exactly when `pcr_ids` normalises and the policy is not partial. The warning is printed exactly when `pcr_ids` normalised and policy fields were given without `use_policy: true`. A success is normalised, carries the normalised `pcr_ids`, and fills in the bank and policy defaults. |
| NormalizerProperties.NormalizeString | src/cli.rs:150-158 | A string `pcr_ids` is normalised as the array of its trimmed comma pieces. |
| NormalizerProperties.NormalizeArray | src/cli.rs:142-149 | An array other than a single string is converted element by element, with no collapse or split. |
| NormalizerProperties.SingletonStringIsString | src/cli.rs:143-149 | `[s]` normalises exactly like `s`. |
| NormalizerProperties.SingletonNumberStaysArray | src/cli.rs:143-149 | `[n]` stays an array: kept when `n` is a `u64`, "Non-positive int" otherwise. |
| NormalizerProperties.StringShape | src/cli.rs:150-187 | A string succeeds exactly when every comma piece spells a `u64` once trimmed. The result has one entry per piece (separators + 1), in order, each the value its piece spells. A failure is the error of the first bad piece. |
| NormalizerProperties.ArrayShape | src/cli.rs:159-187 | An array other than a single string succeeds exactly when each element converts. It keeps length and order, keeps numbers and replaces strings by their values. A failure is the error of the first bad element. |
| NormalizerProperties.ConvertTrimmed | src/cli.rs:155-165 | Trimming a piece at the split and trimming it again before parsing give the same result as one trim. |
| NormalizerProperties.PaddingIgnored | src/cli.rs:155-165 | Whitespace padding around an element does not change how it converts. |
| NormalizerProperties.FirstFailureDecides | src/cli.rs:160-186 | When the first element of an array fails, that error is the result, whatever follows. |
| NormalizerProperties.CanonicalIsFixpoint | src/cli.rs:141-195 | A `pcr_ids` already in canonical form normalises to itself. |
| NormalizerProperties.StringsAndNumbersConverge | src/cli.rs:141-195 | An array of decimal strings and the array of the numbers they spell both normalise to that array of numbers, in the given order with repetitions. |
| NormalizerProperties.PcrIdsStrRoundTrip | src/cli.rs:94-105 | For a non-empty canonical list, normalising the string `get_pcr_ids_str` writes gives the list back. |
| NormalizerProperties.EmptyStringIsUnparseable | src/cli.rs:150-174 | The empty string, which is what an empty list is written as, is "Unparseable string int". |
| NormalizerProperties.NormalizedIsFixpoint | src/cli.rs:107-139 | A configuration is normalised exactly when `normalize` returns it unchanged. |
| NormalizerProperties.NormalizeIdempotent | src/cli.rs:107-139 | Normalising the result of a successful `normalize` returns it unchanged. |
| Configuration.GetPcrIds | src/cli.rs:84-92 | Callable on a canonical `pcr_ids`, where the source does not panic. Absent gives `None`. A present list is read back as the integers whose JSON numbers it holds. |
| Configuration.GetPcrIdsOfNumbers | src/cli.rs:84-92 | `get_pcr_ids` returns exactly the list that was stored. |
| Configuration.GetPcrIdsStr | src/cli.rs:94-105 | Absent gives `None`. A non-empty list is written so that cutting at commas gives each id's decimal, in order. An empty list is written as `""`. |
| Configuration.DecimalsSplit | src/cli.rs:97-101 | Splitting the comma join of the decimals gives the decimals back. |
| Json.ParseNumber | src/cli.rs:165 | Parses a JSON number. The result is a `u64` exactly when the text is canonical digits below 2^64, with that value. Every number starts with `-` or a digit. Within the f64 range, canonical digits always parse, and a negative integer parses to a non-`u64`. |
| Json.FractionalIsFloat | src/cli.rs:165-168 | A number with a fraction or exponent is never a `u64`. |
| Json.MinusZeroIsFloat | src/cli.rs:165-168 | `-0` parses, but not to a `u64`. |
| Json.LeadingZeroRejected | src/cli.rs:165-173 | Digits after a leading zero make the text not a number. |
| Json.ParseDecimal | src/cli.rs:99 | What `u64::to_string` writes parses back to the same `u64`. |
| Text.Trim | src/cli.rs:155 | The result is no longer than the input. It is empty exactly when the input is all whitespace. A result that is not empty starts and ends with non-whitespace. Text without whitespace at its ends is unchanged. |
| Text.TrimPadded | src/cli.rs:155 | Trimming whitespace padding around a trimmed piece gives the piece. |
| Text.Split | src/cli.rs:153-154 | Gives one more piece than there are commas. No piece contains a comma. Joining the pieces with commas gives the input back. |
| Text.SplitJoin | src/cli.rs:101 | Splitting a comma join of comma-free pieces gives the pieces back. |
| Text.Decimal | src/cli.rs:99 | `to_string` gives canonical digits whose value is the number. |
| Policy.PcrStep | src/cli.rs:32-35 | The PCR step uses the configured bank's algorithm, has no further step, and lists exactly the stored ids. |
| Policy.Compile | src/cli.rs:26-65 | With both PCR ids and a public key, the result is an eight-way `Or` of the PCR step, the authorized step and six `NoStep`s. With only PCR ids it is the PCR step. With only a key it is the authorized step. With neither it is `NoStep`. Failures come only from the signed-policy constructor, unchanged, and its failure always propagates. |
| Policy.NormalizedCompiles | src/cli.rs:84-105 | A configuration `normalize` accepted never reaches the accessors' panics. |
| Policy.CompileIgnoresOtherFields | src/cli.rs:26-65 | Only `pcr_ids`, `pcr_bank`, `policy_pubkey_path` and `policy_ref` affect the compiled policy. |
| Policy.CompileWellFormed | src/cli.rs:31-48 | Every `Or` in the compiled tree has exactly eight branches, given that the authorized step's do. |
| Cli.Command | src/cli.rs:216-230 | A program name containing "encrypt" with a next argument always encrypts with that argument: this rule comes first. Next, a program name containing "decrypt" always decrypts, whatever the first argument is. Encrypt otherwise needs `encrypt` as the first argument and reads the one after. Decrypt is chosen only through a program name containing "decrypt" or `decrypt` as the first argument, and never comes with a configuration argument. "No command specified" happens exactly when none of the four rules applies. |
| Cli.ContainsIffInfix | src/cli.rs:216-218 | `contains` holds exactly when the pattern occurs at some position of the string. |
| Cli.ProgramNameEncrypts | src/cli.rs:216-217 | Any program name with "encrypt" in it, followed by an argument, encrypts with that argument, whatever else follows. |
| Cli.GetModeAndCfg | src/cli.rs:206-238 | `--summary` always gives Summary, and `--help` otherwise gives Help. An interactive stdin gives Help unless `--summary` is given. Help comes from nothing else. Otherwise the command decides: no command is "No command specified", Decrypt comes back without a configuration, and a configuration that does not deserialise is a deserialiser error. A configuration is returned exactly when encrypting, and it is normalised. Only `normalize` warns. |
| Cli.EncryptReportsNormalize | src/cli.rs:232-237 | When encrypting with a configuration that deserialises, the outcome is `normalize`'s: its error, its configuration and its warning. |
| Cli.EncryptConfigIsFixpoint | src/cli.rs:232-237 | The configuration handed to encryption is a fixed point of `normalize`. |
| Examples.CommaStringWritten | src/cli.rs:94-105 | `[1, 7, 12]` is written as `"1,7,12"`. |
| Examples.CommaString | src/cli.rs:150-187 | `"1,7,12"` normalises to `[1, 7, 12]`. |
| Examples.SpacedCommaString | src/cli.rs:150-187 | `"1, 7,12"` normalises to `[1, 7, 12]`: the space is trimmed. |
| Examples.SingleStringInArray | src/cli.rs:143-187 | `["7"]` and `"7"` both normalise to `[7]`. |
| Examples.StringsOrNumbers | src/cli.rs:159-187 | `["1", "7"]` and `[1, 7]` both normalise to `[1, 7]`. |
| Examples.TrailingComma | src/cli.rs:150-173 | `"1,"` leaves an empty piece, so it is "Unparseable string int". |
| Examples.NegativeString | src/cli.rs:164-169 | `"-3"` is "Non-positive string int". |
| Examples.WordString | src/cli.rs:164-173 | `"abc"` is "Unparseable string int". |
| Examples.LeadingZeroString | src/cli.rs:164-173 | `"07"` is "Unparseable string int". |
| Examples.BadElements | src/cli.rs:183 | `[true]` and `[null, 1]` are "Invalid value in pcr_ids". |
| Examples.BadTypes | src/cli.rs:189-194 | A number or an object as `pcr_ids` is "Invalid type". |
| Examples.BankDefault | src/cli.rs:109-111 | PCR ids without a bank get "sha256". |
| Examples.PolicyDefaults | src/cli.rs:67-69 | `use_policy: true` alone gets the three default policy fields. |
| Examples.PartialPolicy | src/cli.rs:123-137 | One policy field without `use_policy: true` warns and then fails. So does one with `use_policy: false`. |
| Examples.CompletePolicyWithoutFlag | src/cli.rs:123-138 | All three policy fields without `use_policy` warn and succeed. |

## Left out

- ParseNumber: serde_json also rejects a number whose magnitude overflows `f64`, such as `"1e400"` or an integer above `f64::MAX` (309 digits or more). The source then reports "Unparseable string int". The model does not model this overflow: it parses such text to a float. So its contract states the non-`u64` cases only within `WithinF64Range`: no exponent, and at most 308 characters.
- ConvertText: for the same reason, its "Unparseable string int exactly when the text is not a JSON number" does not cover overflowing text. The source reports `"1e400"` as "Unparseable string int" (src/cli.rs:173); the model reports "Non-positive string int".
- ConvertElement: inherits the same gap for string elements through `ConvertText`.
- StringElementErrors: for the same reason, its "Non-positive string int" cases are stated only within `WithinF64Range`. Its iff with "the trimmed text is not a JSON number" inherits the gap for overflowing text.
- JsonNumber: a float carries no value. Only its not being a `u64` matters here, and floating-point arithmetic is out of scope.
- GetPcrIds: the panic on a `pcr_ids` that is not an array of `u64`s is a precondition. Callers must pass a canonical `pcr_ids`.
- GetPcrIdsStr: the same panic is the same precondition.
- Compile: the panic in `get_pcr_ids` is a precondition. `get_hash_alg_from_name` and `get_authorized_policy_step` are function parameters, because their code (TPM algorithm names, reading and hashing a signed policy) is not part of this model. The `tss_esapi` algorithm type is a plain enumeration.
- PcrHashAlg: `get_pcr_hash_alg` is modelled as a call to the hash lookup parameter. `NameHashAlg` models `get_name_hash_alg` the same way.
- GetModeAndCfg: the panic on a missing `args[0]` is the precondition `stdinIsTerminal || |args| > 0`. Whether stdin is a terminal is a parameter. `serde_json::from_str::<TPM2Config>` is a parameter, and its error is kept only as a message.
- Normalize: the `eprintln!` warning is modelled as the `warned` flag on the result. The text of the message is not modelled.
- The messages of `anyhow` errors are the `NormError` constructors. `Message` gives their texts.
- Sealing, unsealing and TPM access are not part of this model, and neither are the JSON-to-`TPM2Config` deserialisation or the other files of the program.
