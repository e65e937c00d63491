/** Mode selection (`get_mode_and_cfg`): which action the pin runs, and the
    normalised configuration for encryption. Whether standard input is a
    terminal and the JSON deserialiser are parameters. */
module Cli {
  import opened Wrappers
  import opened Configuration
  import opened Normalizer
  import opened NormalizerProperties

  datatype ActionMode = Encrypt | Decrypt | Summary | Help

  datatype CliError =
    | NoCommand                 // "No command specified"
    | Malformed(reason: string) // the deserialiser's error
    | Rejected(error: NormError)

  /** The outcome, with whether `normalize` printed its policy warning. */
  datatype Invocation = Invocation(result: Result<(ActionMode, Option<TPM2Config>), CliError>, warned: bool)

  /** `str::contains` for a string pattern. */
  predicate Contains(s: string, part: string) {
    part <= s || (|s| > 0 && Contains(s[1..], part))
  }

  /** `part` occurs in `s` starting at position `i`. */
  predicate OccursAt(s: string, part: string, i: int) {
    0 <= i <= |s| - |part| && s[i..i + |part|] == part
  }

  /** `Contains` is the usual substring test: `part` occurs at some
      position of `s`. */
  lemma {:induction false} ContainsIffInfix(s: string, part: string)
    ensures Contains(s, part) <==> exists i :: OccursAt(s, part, i)
  {
    if |s| == 0 {
      if Contains(s, part) {
        assert OccursAt(s, part, 0);
      }
    } else {
      ContainsIffInfix(s[1..], part);
      if part <= s {
        assert OccursAt(s, part, 0);
      } else if Contains(s[1..], part) {
        var i :| OccursAt(s[1..], part, i);
        assert s[i + 1..i + 1 + |part|] == s[1..][i..i + |part|];
        assert OccursAt(s, part, i + 1);
      }
      if i :| OccursAt(s, part, i) {
        if i == 0 {
          assert part <= s;
        } else {
          assert s[1..][i - 1..i - 1 + |part|] == s[i..i + |part|];
          assert OccursAt(s[1..], part, i - 1);
        }
      }
    }
  }

  /** The action named by the program name or the first argument, and the
      argument holding the configuration when encrypting. */
  function Command(args: seq<string>): (r: Result<(ActionMode, Option<string>), CliError>)
    requires |args| > 0
    ensures r.Success? ==> (r.value.0 == Encrypt && r.value.1.Some?) || (r.value.0 == Decrypt && r.value.1.None?)
    ensures r.Success? && r.value.0 == Encrypt ==>
              (|args| >= 2 && Contains(args[0], "encrypt") && r.value.1 == Some(args[1])) ||
              (|args| >= 3 && args[1] == "encrypt" && r.value.1 == Some(args[2]))
    ensures r.Failure? ==> r.error == NoCommand && !Contains(args[0], "decrypt")
    // the program-name rule for encrypting comes first
    ensures Contains(args[0], "encrypt") && |args| >= 2 ==> r == Success((Encrypt, Some(args[1])))
    ensures r.Success? && r.value.0 == Decrypt ==>
              Contains(args[0], "decrypt") || (|args| > 1 && args[1] == "decrypt")
    // the program-name rule for decrypting comes next, before the first argument
    ensures !(Contains(args[0], "encrypt") && |args| >= 2) && Contains(args[0], "decrypt") ==>
              r == Success((Decrypt, None))
    // no command exactly when no rule applies
    ensures r.Failure? <==>
              && !(Contains(args[0], "encrypt") && |args| >= 2)
              && !Contains(args[0], "decrypt")
              && !(|args| >= 3 && args[1] == "encrypt")
              && !(|args| > 1 && args[1] == "decrypt")
  {
    if Contains(args[0], "encrypt") && |args| >= 2 then Success((Encrypt, Some(args[1])))
    else if Contains(args[0], "decrypt") then Success((Decrypt, None))
    else if |args| > 1 then
      if args[1] == "encrypt" && |args| >= 3 then Success((Encrypt, Some(args[2])))
      else if args[1] == "decrypt" then Success((Decrypt, None))
      else Failure(NoCommand)
    else Failure(NoCommand)
  }

  /** Neither `--summary`, `--help` nor an interactive standard input cuts
      `get_mode_and_cfg` short, so it reads the command. */
  predicate ReadsCommand(args: seq<string>, stdinIsTerminal: bool) {
    !stdinIsTerminal && !(|args| > 1 && (args[1] == "--summary" || args[1] == "--help"))
  }

  /** `get_mode_and_cfg`. It reads `args[0]` unless `--summary`, `--help`
      or a terminal on standard input short-circuits first, and panics if
      there is no such argument. */
  function GetModeAndCfg(
    args: seq<string>,
    stdinIsTerminal: bool,
    deserialize: string -> Result<TPM2Config, string>
  ): (out: Invocation)
    requires stdinIsTerminal || |args| > 0
    ensures |args| > 1 && args[1] == "--summary" ==> out == Invocation(Success((Summary, None)), false)
    ensures out.result.Success? && out.result.value.0 == Summary ==> |args| > 1 && args[1] == "--summary"
    ensures out.result.Success? && out.result.value.0 == Help ==>
              (|args| > 1 && args[1] == "--help") || stdinIsTerminal
    ensures |args| > 1 && args[1] == "--help" ==> out == Invocation(Success((Help, None)), false)
    ensures stdinIsTerminal && !(|args| > 1 && args[1] == "--summary") ==>
              out == Invocation(Success((Help, None)), false)
    // otherwise the command decides the mode
    ensures ReadsCommand(args, stdinIsTerminal) && Command(args).Failure? ==>
              out == Invocation(Failure(Command(args).error), false)
    ensures ReadsCommand(args, stdinIsTerminal) && Command(args).Success? && Command(args).value.1.None? ==>
              out == Invocation(Success((Command(args).value.0, None)), false)
    ensures ReadsCommand(args, stdinIsTerminal) && Command(args).Success? && Command(args).value.1.Some? &&
            deserialize(Command(args).value.1.value).Failure? ==>
              out == Invocation(Failure(Malformed(deserialize(Command(args).value.1.value).error)), false)
    // a configuration comes back exactly when encrypting, and it is normalised
    ensures out.result.Success? ==> (out.result.value.0 == Encrypt <==> out.result.value.1.Some?)
    ensures out.result.Success? && out.result.value.1.Some? ==> IsNormalized(out.result.value.1.value)
    // only `normalize` warns
    ensures out.warned ==> out.result.Success? ==> out.result.value.0 == Encrypt
    ensures out.warned ==> out.result.Failure? ==> out.result.error == Rejected(IncompletePolicy)
  {
    if |args| > 1 && args[1] == "--summary" then Invocation(Success((Summary, None)), false)
    else if |args| > 1 && args[1] == "--help" then Invocation(Success((Help, None)), false)
    else if stdinIsTerminal then Invocation(Success((Help, None)), false)
    else
      match Command(args)
      case Failure(e) => Invocation(Failure(e), false)
      case Success((mode, None)) => Invocation(Success((mode, None)), false)
      case Success((mode, Some(text))) =>
        match deserialize(text)
        case Failure(reason) => Invocation(Failure(Malformed(reason)), false)
        case Success(cfg) =>
          var n := Normalize(cfg);
          match n.result
          case Failure(e) => Invocation(Failure(Rejected(e)), n.warned)
          case Success(c) => Invocation(Success((mode, Some(c))), n.warned)
  }

  /** When encrypting with a configuration that deserialises, the outcome is
      exactly what `normalize` makes of it: its error, its configuration and
      its warning. */
  lemma EncryptReportsNormalize(
    args: seq<string>,
    deserialize: string -> Result<TPM2Config, string>,
    text: string,
    cfg: TPM2Config
  )
    requires |args| > 0 && !(|args| > 1 && (args[1] == "--summary" || args[1] == "--help"))
    requires Command(args) == Success((Encrypt, Some(text))) && deserialize(text) == Success(cfg)
    ensures var out := GetModeAndCfg(args, false, deserialize);
            && out.warned == Normalize(cfg).warned
            && (out.result.Success? <==> Normalize(cfg).result.Success?)
            && (out.result.Success? ==> out.result.value == (Encrypt, Some(Normalize(cfg).result.value)))
            && (out.result.Failure? ==> out.result.error == Rejected(Normalize(cfg).result.error))
  {
  }

  /** The configuration handed to encryption is a fixed point of
      `normalize`: normalising it again changes nothing. */
  lemma EncryptConfigIsFixpoint(
    args: seq<string>,
    stdinIsTerminal: bool,
    deserialize: string -> Result<TPM2Config, string>
  )
    requires stdinIsTerminal || |args| > 0
    ensures var out := GetModeAndCfg(args, stdinIsTerminal, deserialize);
            out.result.Success? && out.result.value.1.Some? ==>
              var c := out.result.value.1.value; Normalize(c).result == Success(c)
  {
    var out := GetModeAndCfg(args, stdinIsTerminal, deserialize);
    if out.result.Success? && out.result.value.1.Some? {
      NormalizedIsFixpoint(out.result.value.1.value);
    }
  }

  /** Any program name with "encrypt" in it, given a next argument,
      encrypts with that argument as the configuration, whatever follows. */
  lemma ProgramNameEncrypts(before: string, after: string, config: string, rest: seq<string>)
    ensures Command([before + "encrypt" + after, config] + rest) == Success((Encrypt, Some(config)))
  {
    var name := before + "encrypt" + after;
    assert OccursAt(name, "encrypt", |before|);
    ContainsIffInfix(name, "encrypt");
  }
}
