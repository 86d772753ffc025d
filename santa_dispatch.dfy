/**
 * The sending half of secret_santa.py: what one `send_email` call reports,
 * the loop that sends to every participant and tallies the results, and the
 * script's top-level run from the participant check to the summary.
 * The SMTP server is an oracle: `transport(i)` is whether the `i`-th live
 * send went through, `loginOk` whether the connection test's login did.
 */
module SantaDispatch {
  import opened Wrappers
  import opened SantaConfig
  import opened SantaPairing
  import opened Text

  /** What became of one `send_email` call. */
  datatype Delivery =
    | Previewed        // dry run: the message is printed, nothing is contacted
    | MissingPassword  // live run without a `password` variable
    | Sent             // the server accepted login and message
    | SendFailed       // authentication, SMTP or any other error

  /** `send_email` returned `True`. */
  predicate Succeeded(d: Delivery)
  {
    d.Previewed? || d.Sent?
  }

  /** The call opened a connection to the SMTP server. */
  predicate ContactsServer(d: Delivery)
  {
    d.Sent? || d.SendFailed?
  }

  /**
   * `send_email(sender, receiver, recipient)`: a dry run succeeds without
   * reading the password or contacting anyone; a live run without a password
   * (`None`, an empty one is still tried) fails before connecting; otherwise
   * the server decides.
   */
  function SendEmail(dryRun: bool, password: Option<string>, transportOk: bool): (d: Delivery)
    ensures Succeeded(d) <==> dryRun || (password.Some? && transportOk)
    ensures ContactsServer(d) <==> !dryRun && password.Some?
    ensures d.MissingPassword? <==> !dryRun && password.None?
  {
    if dryRun then Previewed
    else if password.None? then MissingPassword
    else if transportOk then Sent
    else SendFailed
  }

  /** The outcomes of the first `n` calls of the send loop, in loop order. */
  function Deliveries(n: nat, dryRun: bool, password: Option<string>, transport: nat -> bool): (ds: seq<Delivery>)
    ensures |ds| == n
  {
    if n == 0 then []
    else Deliveries(n - 1, dryRun, password, transport) + [SendEmail(dryRun, password, transport(n - 1))]
  }

  /** Call `i` of the send loop reports what `send_email` answers for the `i`-th send. */
  lemma {:induction false} DeliveriesAt(n: nat, dryRun: bool, password: Option<string>, transport: nat -> bool, i: nat)
    requires i < n
    ensures Deliveries(n, dryRun, password, transport)[i] == SendEmail(dryRun, password, transport(i))
  {
    if i < n - 1 {
      DeliveriesAt(n - 1, dryRun, password, transport, i);
    }
  }

  /** `successes` once the loop has seen the first `k` outcomes of `ds`. */
  function SuccessCount(ds: seq<Delivery>, k: nat): (c: nat)
    requires k <= |ds|
    ensures c <= k
  {
    if k == 0 then 0
    else if Succeeded(ds[k - 1]) then SuccessCount(ds, k - 1) + 1
    else SuccessCount(ds, k - 1)
  }

  /** `failures` once the loop has sent to the first `k` of `ps`, with outcomes `ds`. */
  function FailedAddresses(ps: seq<Participant>, ds: seq<Delivery>, k: nat): (fs: seq<string>)
    requires |ps| == |ds| && k <= |ds|
    ensures |fs| <= k
  {
    if k == 0 then []
    else if Succeeded(ds[k - 1]) then FailedAddresses(ps, ds, k - 1)
    else FailedAddresses(ps, ds, k - 1) + [ps[k - 1].email]
  }

  /** The addresses of `ps`, in order. */
  function Emails(ps: seq<Participant>): (es: seq<string>)
    ensures |es| == |ps|
    ensures forall i :: 0 <= i < |ps| ==> es[i] == ps[i].email
  {
    seq(|ps|, i requires 0 <= i < |ps| => ps[i].email)
  }

  /** Every send is counted once: `successes + len(failures)` is the number of sends. */
  lemma {:induction false} TallyConserved(ps: seq<Participant>, ds: seq<Delivery>, k: nat)
    requires |ps| == |ds| && k <= |ds|
    ensures SuccessCount(ds, k) + |FailedAddresses(ps, ds, k)| == k
  {
    if k > 0 {
      TallyConserved(ps, ds, k - 1);
    }
  }

  /** `failures` holds exactly the addresses whose send returned false. */
  lemma {:induction false} FailedAddressesExact(ps: seq<Participant>, ds: seq<Delivery>, k: nat, x: string)
    requires |ps| == |ds| && k <= |ds|
    ensures x in FailedAddresses(ps, ds, k) <==>
            exists i :: 0 <= i < k && !Succeeded(ds[i]) && ps[i].email == x
  {
    if k > 0 {
      FailedAddressesExact(ps, ds, k - 1, x);
    }
  }

  /** When every send succeeds, the tally is all successes and no failures. */
  lemma {:induction false} AllSucceed(ps: seq<Participant>, ds: seq<Delivery>, k: nat)
    requires |ps| == |ds| && k <= |ds|
    requires forall i :: 0 <= i < k ==> Succeeded(ds[i])
    ensures SuccessCount(ds, k) == k
    ensures FailedAddresses(ps, ds, k) == []
  {
    if k > 0 {
      AllSucceed(ps, ds, k - 1);
    }
  }

  /** When every send fails, every address is listed as failed, in order. */
  lemma {:induction false} AllFail(ps: seq<Participant>, ds: seq<Delivery>, k: nat)
    requires |ps| == |ds| && k <= |ds|
    requires forall i :: 0 <= i < k ==> !Succeeded(ds[i])
    ensures SuccessCount(ds, k) == 0
    ensures FailedAddresses(ps, ds, k) == Emails(ps)[..k]
  {
    if k > 0 {
      AllFail(ps, ds, k - 1);
      assert Emails(ps)[..k] == Emails(ps)[..k - 1] + [ps[k - 1].email];
    }
  }

  /**
   * A dry run never contacts the server, and every participant is counted
   * as a success.
   */
  lemma DryRunTally(ps: seq<Participant>, password: Option<string>, transport: nat -> bool)
    ensures forall i :: 0 <= i < |ps| ==> !ContactsServer(Deliveries(|ps|, true, password, transport)[i])
    ensures SuccessCount(Deliveries(|ps|, true, password, transport), |ps|) == |ps|
    ensures FailedAddresses(ps, Deliveries(|ps|, true, password, transport), |ps|) == []
  {
    forall i | 0 <= i < |ps| {
      DeliveriesAt(|ps|, true, password, transport, i);
    }
    AllSucceed(ps, Deliveries(|ps|, true, password, transport), |ps|);
  }

  /** A live run without a password fails every send and lists every address. */
  lemma MissingPasswordTally(ps: seq<Participant>, transport: nat -> bool)
    ensures forall i :: 0 <= i < |ps| ==> !ContactsServer(Deliveries(|ps|, false, None, transport)[i])
    ensures SuccessCount(Deliveries(|ps|, false, None, transport), |ps|) == 0
    ensures FailedAddresses(ps, Deliveries(|ps|, false, None, transport), |ps|) == Emails(ps)
  {
    forall i | 0 <= i < |ps| {
      DeliveriesAt(|ps|, false, None, transport, i);
    }
    AllFail(ps, Deliveries(|ps|, false, None, transport), |ps|);
    assert Emails(ps)[..|ps|] == Emails(ps);
  }

  /**
   * The send loop: participant `i` is written to at their own address and
   * told the name at position `(i + 1) % N`; successes are counted and the
   * addresses of failed sends collected in loop order.
   */
  method SendAll(sender: string, ps: seq<Participant>, dryRun: bool, password: Option<string>,
                 transport: nat -> bool)
    returns (successes: nat, failures: seq<string>, calls: seq<Email>)
    ensures calls == Assignment(sender, ps)
    ensures successes == SuccessCount(Deliveries(|ps|, dryRun, password, transport), |ps|)
    ensures failures == FailedAddresses(ps, Deliveries(|ps|, dryRun, password, transport), |ps|)
    ensures successes + |failures| == |ps|
  {
    var n := |ps|;
    successes, failures, calls := 0, [], [];
    ghost var ds := Deliveries(n, dryRun, password, transport);
    var i := 0;
    while i < n
      invariant 0 <= i <= n
      invariant successes == SuccessCount(ds, i)
      invariant failures == FailedAddresses(ps, ds, i)
      invariant calls == Messages(sender, ps, i)
    {
      var receiver := ps[i].email;
      var recipient := ps[Next(i, n)].name;
      calls := calls + [Email(sender, receiver, recipient)];
      var ok := Succeeded(SendEmail(dryRun, password, transport(i)));
      DeliveriesAt(n, dryRun, password, transport, i);
      assert ok == Succeeded(ds[i]);
      if ok {
        successes := successes + 1;
      } else {
        failures := failures + [receiver];
      }
      i := i + 1;
    }
    TallyConserved(ps, ds, n);
  }

  /** The command-line flags, the process environment and the parsed `.env` file. */
  datatype Config = Config(
    dryRunFlag: bool,   // --dry-run / -n
    confirm: bool,      // --confirm / -c
    testConnect: bool,  // --test-connect
    sender: string,     // --sender
    process: Env,       // the environment the script starts with
    dotenv: Env)        // the assignments in the selected .env file

  /**
   * Whether the run previews instead of sending, as the script computes it:
   * the flag, or `DRY_RUN` in the process environment. The `.env` file is
   * loaded only afterwards and plays no part.
   */
  function Mode(cfg: Config): (dryRun: bool)
    ensures dryRun <==> cfg.dryRunFlag
                        || ("DRY_RUN" in cfg.process && Lower(cfg.process["DRY_RUN"]) in DryRunValues)
  {
    DryRunAsWritten(cfg.dryRunFlag, cfg.process, cfg.dotenv)
  }

  /** The SMTP password from the environment once the `.env` file is loaded (secret_santa.py:89). */
  function Password(cfg: Config): (p: Option<string>)
    ensures "password" in cfg.process ==> p == Some(cfg.process["password"])
    ensures "password" !in cfg.process ==> p == GetEnv(cfg.dotenv, "password")
  {
    GetEnv(LoadDotenv(cfg.process, cfg.dotenv), "password")
  }

  /** How a run of the script ends. */
  datatype RunOutcome =
    | TooFewParticipants                         // `quit()` before shuffling
    | Cancelled                                  // the operator did not confirm: `sys.exit(0)`
    | NoConfirmInput                             // end of input at the prompt: `sys.exit(1)`
    | ConnectChecked(ok: bool)                   // --test-connect: login tried, nothing sent
    | Finished(successes: nat, failures: seq<string>)  // the send loop ran

  /** The process exit status: 1 on end of input at the prompt or a failed login test, else 0. */
  function ExitStatus(r: RunOutcome): (code: int)
    ensures code == 0 || code == 1
    ensures code == 1 <==> r == NoConfirmInput || r == ConnectChecked(false)
  {
    match r
    case TooFewParticipants => 0
    case Cancelled => 0
    case NoConfirmInput => 1
    case ConnectChecked(ok) => TestConnectExitStatus(ok)
    case Finished(_, _) => 0
  }

  /**
   * How the script ends for the (already shuffled) participant list `ps`:
   * the participant check, then the confirmation prompt (asked only with
   * `--confirm` in live mode), then `--test-connect`, then the send loop.
   */
  function Outcome(cfg: Config, ps: seq<Participant>, reply: Option<string>, loginOk: bool,
                   transport: nat -> bool): (r: RunOutcome)
    ensures r == TooFewParticipants <==> |ps| <= 1
    ensures r == NoConfirmInput <==> |ps| >= 2 && cfg.confirm && !Mode(cfg) && reply.None?
    ensures r == Cancelled <==>
              |ps| >= 2 && cfg.confirm && !Mode(cfg) && reply.Some? && Lower(Strip(reply.value)) !in Affirmative
    ensures r.ConnectChecked? <==>
              |ps| >= 2 && cfg.testConnect && (!cfg.confirm || Mode(cfg) || ConfirmGate(reply) == Proceed)
    ensures r.ConnectChecked? ==> r.ok == TestConnect(Password(cfg), loginOk)
    ensures r.Finished? <==>
              |ps| >= 2 && !cfg.testConnect && (!cfg.confirm || Mode(cfg) || ConfirmGate(reply) == Proceed)
  {
    if |ps| <= 1 then TooFewParticipants
    else if cfg.confirm && !Mode(cfg) && ConfirmGate(reply) == NoInput then NoConfirmInput
    else if cfg.confirm && !Mode(cfg) && ConfirmGate(reply) == Declined then Cancelled
    else if cfg.testConnect then ConnectChecked(TestConnect(Password(cfg), loginOk))
    else
      var ds := Deliveries(|ps|, Mode(cfg), Password(cfg), transport);
      Finished(SuccessCount(ds, |ps|), FailedAddresses(ps, ds, |ps|))
  }

  /** Whenever the send loop runs, every participant is counted once. */
  lemma FinishedConserves(cfg: Config, ps: seq<Participant>, reply: Option<string>, loginOk: bool,
                          transport: nat -> bool)
    requires Outcome(cfg, ps, reply, loginOk, transport).Finished?
    ensures |ps| >= 2
    ensures Outcome(cfg, ps, reply, loginOk, transport).successes
            + |Outcome(cfg, ps, reply, loginOk, transport).failures| == |ps|
  {
    TallyConserved(ps, Deliveries(|ps|, Mode(cfg), Password(cfg), transport), |ps|);
  }

  /**
   * A dry run with at least two participants never prompts, and unless only
   * the login is tested it ends with every participant counted as a success.
   */
  lemma DryRunOutcome(cfg: Config, ps: seq<Participant>, reply: Option<string>, loginOk: bool,
                      transport: nat -> bool)
    requires Mode(cfg) && !cfg.testConnect && |ps| >= 2
    ensures Outcome(cfg, ps, reply, loginOk, transport) == Finished(|ps|, [])
  {
    DryRunTally(ps, Password(cfg), transport);
  }

  /**
   * A live run with no password anywhere that reaches the send loop fails for
   * every participant, listing all addresses in order.
   */
  lemma NoPasswordOutcome(cfg: Config, ps: seq<Participant>, reply: Option<string>, loginOk: bool,
                          transport: nat -> bool)
    requires !Mode(cfg) && !cfg.testConnect && |ps| >= 2
    requires "password" !in cfg.process && "password" !in cfg.dotenv
    requires !cfg.confirm || ConfirmGate(reply) == Proceed
    ensures Outcome(cfg, ps, reply, loginOk, transport) == Finished(0, Emails(ps))
  {
    MissingPasswordTally(ps, transport);
  }

  /**
   * `DRY_RUN=true` written only in the `.env` file, with no password anywhere:
   * the script still runs live, and every send fails.
   */
  lemma FileDryRunSendsLive(ps: seq<Participant>, sender: string, reply: Option<string>, loginOk: bool,
                            transport: nat -> bool)
    requires |ps| >= 2
    ensures var cfg := Config(false, false, false, sender, map[], map["DRY_RUN" := "true"]);
      !Mode(cfg) && Outcome(cfg, ps, reply, loginOk, transport) == Finished(0, Emails(ps))
  {
    var cfg := Config(false, false, false, sender, map[], map["DRY_RUN" := "true"]);
    NoPasswordOutcome(cfg, ps, reply, loginOk, transport);
  }

  /**
   * The script: stop with fewer than two participants, otherwise shuffle the
   * list in place and carry on as `Outcome` says. `calls` are the
   * `send_email` calls made, in order.
   */
  method RunScript(cfg: Config, a: array<Participant>, draw: nat -> nat, reply: Option<string>,
                   loginOk: bool, transport: nat -> bool)
    returns (r: RunOutcome, calls: seq<Email>)
    modifies a
    ensures a.Length <= 1 ==> r == TooFewParticipants && a[..] == old(a[..])
    ensures multiset(a[..]) == multiset(old(a[..]))
    ensures r == Outcome(cfg, a[..], reply, loginOk, transport)
    ensures r.Finished? ==> calls == Assignment(cfg.sender, a[..])
    ensures !r.Finished? ==> calls == []
  {
    if a.Length <= 1 {
      return TooFewParticipants, [];
    }
    Shuffle(a, draw);
    var dryRun := Mode(cfg);
    if cfg.confirm && !dryRun {
      var gate := ConfirmGate(reply);
      if gate == NoInput {
        return NoConfirmInput, [];
      } else if gate == Declined {
        return Cancelled, [];
      }
    }
    if cfg.testConnect {
      var ok := TestConnect(Password(cfg), loginOk);
      return ConnectChecked(ok), [];
    }
    var successes, failures;
    successes, failures, calls := SendAll(cfg.sender, a[..], dryRun, Password(cfg), transport);
    r := Finished(successes, failures);
  }
}
