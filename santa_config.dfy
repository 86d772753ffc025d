/**
 * The configuration decisions of the gift-exchange script (secret_santa.py):
 * where the dry-run mode comes from, what `load_dotenv` does to the
 * environment, the operator confirmation gate and the SMTP login check.
 * The environment and the parsed `.env` file are values here, not ambient
 * state.
 */
module SantaConfig {
  import opened Wrappers
  import opened Text

  /** A process environment, or the assignments read from a `.env` file. */
  type Env = map<string, string>

  /** Looking a variable up in an environment, absent when it is not set. */
  function GetEnv(env: Env, key: string): (v: Option<string>)
    ensures v.Some? <==> key in env
    ensures v.Some? ==> v.value == env[key]
  {
    if key in env then Some(env[key]) else None
  }

  /** Looking a variable up, with a fallback value when it is not set. */
  function GetEnvOr(env: Env, key: string, default: string): (v: string)
    ensures key in env ==> v == env[key]
    ensures key !in env ==> v == default
  {
    match GetEnv(env, key)
    case Some(x) => x
    case None => default
  }

  /**
   * Loading the `.env` file without overriding (secret_santa.py:43): a variable the
   * file assigns is added only when the process environment lacks it.
   */
  function LoadDotenv(process: Env, file: Env): (loaded: Env)
    ensures loaded.Keys == process.Keys + file.Keys
    ensures forall k :: k in process ==> loaded[k] == process[k]
    ensures forall k :: k in file && k !in process ==> loaded[k] == file[k]
  {
    file + process
  }

  /** The `DRY_RUN` values that switch dry-run mode on, after lower-casing. */
  const DryRunValues: seq<string> := ["1", "true", "yes"]

  /**
   * The dry-run switch read from the environment (secret_santa.py:32): an
   * unset variable counts as "false", and a value turns the mode on when,
   * lower-cased, it is one of `DryRunValues`.
   */
  function DryRunFromEnv(env: Env): (on: bool)
    ensures on <==> "DRY_RUN" in env && Lower(env["DRY_RUN"]) in DryRunValues
  {
    assert Lower("false") !in DryRunValues by {
      assert |Lower("false")| == 5 && Lower("false")[0] == 'f';
    }
    Lower(GetEnvOr(env, "DRY_RUN", "false")) in DryRunValues
  }

  /**
   * The mode as the script computes it: the `--dry-run` flag or the
   * `DRY_RUN` variable, read from the process environment BEFORE
   * `load_dotenv` has run, so a `DRY_RUN` line in the `.env` file is ignored.
   */
  function DryRunAsWritten(flag: bool, process: Env, file: Env): (on: bool)
    ensures on <==> flag || ("DRY_RUN" in process && Lower(process["DRY_RUN"]) in DryRunValues)
  {
    flag || DryRunFromEnv(process)
  }

  /**
   * The mode as the configuration design intends it: the flag wins, and
   * otherwise `DRY_RUN` is read from the environment as loaded from the
   * `.env` file, where the process environment takes precedence.
   */
  function DryRun(flag: bool, process: Env, file: Env): (on: bool)
    ensures flag ==> on
    ensures !flag && "DRY_RUN" in process ==> (on <==> Lower(process["DRY_RUN"]) in DryRunValues)
    ensures !flag && "DRY_RUN" !in process ==>
              (on <==> "DRY_RUN" in file && Lower(file["DRY_RUN"]) in DryRunValues)
  {
    flag || DryRunFromEnv(LoadDotenv(process, file))
  }

  /** The two derivations differ only when `DRY_RUN` is set in the file alone. */
  lemma DryRunAgreesUnlessOnlyInFile(flag: bool, process: Env, file: Env)
    requires "DRY_RUN" in process || "DRY_RUN" !in file
    ensures DryRunAsWritten(flag, process, file) == DryRun(flag, process, file)
  {
  }

  /** `DRY_RUN=true` written in the `.env` file leaves the script in live mode. */
  lemma DryRunInFileIgnored()
    ensures !DryRunAsWritten(false, map[], map["DRY_RUN" := "true"])
    ensures DryRun(false, map[], map["DRY_RUN" := "true"])
  {
    assert Lower("true") == "true";
  }

  /** What the operator's answer at the confirmation prompt leads to. */
  datatype Gate = Proceed | Declined | NoInput

  /** The affirmative answers, after stripping and lower-casing. */
  const Affirmative: seq<string> := ["yes", "y", "si", "s"]

  /**
   * The `--confirm` prompt: `None` stands for end of input (`EOFError`).
   * The run proceeds exactly when the stripped, lower-cased answer is one
   * of the affirmative words.
   */
  function ConfirmGate(reply: Option<string>): (g: Gate)
    ensures g == NoInput <==> reply.None?
    ensures g == Proceed <==> reply.Some? && Lower(Strip(reply.value)) in Affirmative
  {
    match reply
    case None => NoInput
    case Some(line) => if Lower(Strip(line)) in Affirmative then Proceed else Declined
  }

  /**
   * The gate ignores whitespace around the answer and the case of its
   * letters: padding and upper-casing an answer never changes the decision.
   */
  lemma ConfirmGateIgnoresPaddingAndCase(pre: string, answer: string, post: string)
    requires AllSpace(pre) && AllSpace(post)
    ensures ConfirmGate(Some(pre + answer + post)) == ConfirmGate(Some(answer))
    ensures ConfirmGate(Some(Lower(answer))) == ConfirmGate(Some(answer))
  {
    StripIgnoresPadding(pre, answer, post);
    StripLowerCommute(answer);
    LowerIdempotent(answer);
    StripLowerCommute(Lower(answer));
  }

  /**
   * The SMTP login check (secret_santa.py:49-67): an absent or empty password fails
   * before any connection is attempted; otherwise the result is whether the
   * server accepted the login (`loginOk`, the transport's answer).
   */
  function TestConnect(password: Option<string>, loginOk: bool): (ok: bool)
    ensures ok ==> password.Some? && password.value != ""
    ensures password.Some? && password.value != "" ==> ok == loginOk
  {
    match password
    case None => false
    case Some(p) => if p == "" then false else loginOk
  }

  /** The exit status after the connection test (secret_santa.py:147): zero on success, one on failure. */
  function TestConnectExitStatus(ok: bool): (code: int)
    ensures code == 0 <==> ok
    ensures code == 1 <==> !ok
  {
    if ok then 0 else 1
  }
}
