# Secret Santa mailer and word-guessing game, modelled in Dafny

This project models the two scripts of the repository.

- `secret_santa.py` reads its configuration: the command-line flags, the
  process environment and a `.env` file. It shuffles the participant list
  (name and email kept together) and writes to each participant at
  position `i` the name of the participant at position `(i + 1) % N`. It
  can preview instead of sending (dry run), ask the operator for
  confirmation, or only test the SMTP login. At the end it counts
  successful sends and collects the addresses whose send failed.
- `word_guessing_game.py` picks a secret word from a fixed bank and shows
  one `_` per letter. It reads one line per turn, lower-cased and stripped.
  It refuses empty and multi-letter input, reveals every occurrence of a
  correct letter, and takes one of ten attempts for a wrong one. The game
  stops at the first fully revealed word or when attempts run out.

Modules:

- `Text`: Python's `str.strip()` and `str.lower()`.
- `SantaConfig`: environment lookup, `load_dotenv`, the dry-run mode, the
  confirmation gate and the login test.
- `SantaPairing`: the in-place shuffle and the cyclic giver/receiver
  assignment.
- `SantaDispatch`: `send_email`'s outcome, the send loop with its tally,
  and the script's top-level run.
- `WordGuessing`: the game as a specification function `Step`, a `Game`
  class whose revealed-letter buffer is an array changed in place, and
  the whole script as the method `Play`.

The SMTP server, the random source, the operator's answer and the
console are parameters. The SMTP server is an oracle that says whether
each send, or the login test, succeeds. The random source is an oracle
giving the shuffle's draws.

## Model

| member | source | states |
|---|---|---|
| Text.Strip | word_guessing_game.py:13 | `str.strip()`: never longer than its input; what it removes and keeps is stated by `StripSpec` and `StripEnds` |
| Text.Lower | word_guessing_game.py:13 | ASCII lower-casing: same length, every letter `A`-`Z` mapped to its lower-case form and every other character kept |
| Text.StripSpec | word_guessing_game.py:13 | `strip()` removes only whitespace: the input is some whitespace, then the stripped text, then some whitespace |
| Text.StripEnds | word_guessing_game.py:13 | the stripped text is empty or starts and ends with a non-whitespace character |
| Text.StripIgnoresPadding | secret_santa.py:135 | whitespace added around a text does not change what `strip()` returns |
| Text.StripLowerCommute | secret_santa.py:135 | `.strip().lower()` (the prompt) and `.lower().strip()` (the game) give the same string |
| Text.LowerIdempotent | word_guessing_game.py:13 | lower-casing twice is the same as lower-casing once |
| SantaConfig.GetEnv | secret_santa.py:89 | `os.getenv` finds a value exactly when the key is set, and it is the set value |
| SantaConfig.GetEnvOr | secret_santa.py:32 | `os.getenv` with a default returns the set value, or the default when the key is unset |
| SantaConfig.LoadDotenv | secret_santa.py:43 | after `load_dotenv`, every variable of the process or of the file is set; process values win; file values fill only unset variables |
| SantaConfig.DryRunFromEnv | secret_santa.py:32 | the `DRY_RUN` variable switches dry run on exactly when it is set and lower-cases to `1`, `true` or `yes` |
| SantaConfig.DryRunAsWritten | secret_santa.py:31-33 | the mode as written: on exactly when the flag is given or the process environment's `DRY_RUN` lower-cases to `1`, `true` or `yes`; the `.env` file plays no part |
| SantaConfig.DryRun | secret_santa.py:31-43 | corrected mode: the flag wins; otherwise a process `DRY_RUN` decides; otherwise the file's `DRY_RUN` decides |
| SantaConfig.DryRunAgreesUnlessOnlyInFile | secret_santa.py:31-43 | the as-written and corrected modes agree unless `DRY_RUN` is set in the file only |
| SantaConfig.DryRunInFileIgnored | secret_santa.py:31-43 | with `DRY_RUN=true` only in the file, the script as written runs live, while the corrected mode is a dry run |
| SantaConfig.ConfirmGate | secret_santa.py:131-141 | end of input gives `NoInput`; the run proceeds exactly when the stripped, lower-cased answer is `yes`, `y`, `si` or `s` |
| SantaConfig.ConfirmGateIgnoresPaddingAndCase | secret_santa.py:134-139 | surrounding whitespace and letter case of the answer never change the gate's decision |
| SantaConfig.TestConnect | secret_santa.py:49-67 | the login test succeeds only with a non-empty password, and with one it succeeds exactly when the server accepts the login |
| SantaConfig.TestConnectExitStatus | secret_santa.py:147 | exit status 0 exactly on a successful login test, 1 otherwise |
| SantaPairing.Shuffle | secret_santa.py:128-129 | the shuffle in place leaves a permutation of the list (same multiset of entries), and every entry keeps its name with its email |
| SantaPairing.Next | secret_santa.py:153 | the recipient position `(i + 1) % N` is a valid position |
| SantaPairing.NextStep | secret_santa.py:153 | the recipient is the next position, and the last position wraps around to the first |
| SantaPairing.NoSelfAssignment | secret_santa.py:124-153 | with at least two participants, nobody draws their own position |
| SantaPairing.WithinOneRound | secret_santa.py:153 | following the assignment `k <= N` times from `i` reaches `i + k`, wrapped once at most |
| SantaPairing.SingleCycle | secret_santa.py:151-153 | the assignment is one cycle through all participants: `N` steps return to the start, no position repeats before that, every position is reached |
| SantaPairing.Giver | secret_santa.py:153 | every position is drawn by some position |
| SantaPairing.GiverUnique | secret_santa.py:153 | a position is drawn by exactly one giver |
| SantaPairing.Body | secret_santa.py:71 | the message body holds the recipient's name right after the greeting |
| SantaPairing.Messages | secret_santa.py:151-154 | the first `k` calls of the send loop, one per iteration; `MessageAt` gives each call's addressee and name |
| SantaPairing.MessageAt | secret_santa.py:151-154 | the `i`-th `send_email` call goes to participant `i`'s address and names the participant at `(i + 1) % N` |
| SantaPairing.Assignment | secret_santa.py:151-154 | one call per participant, in list order, each to that participant's address and with the next participant's name |
| SantaPairing.AssignmentIsDerangement | secret_santa.py:124-154 | with distinct names, nobody is told their own name and no two participants are told the same name |
| SantaDispatch.SendEmail | secret_santa.py:70-115 | a dry run succeeds without contacting the server; a live run with no `password` variable fails before connecting; otherwise the server's answer decides |
| SantaDispatch.Deliveries | secret_santa.py:151-154 | one outcome per send of the loop |
| SantaDispatch.DeliveriesAt | secret_santa.py:154 | the `i`-th outcome is what `send_email` reports for the `i`-th send |
| SantaDispatch.Emails | secret_santa.py:152 | the participants' addresses, in list order |
| SantaDispatch.SuccessCount | secret_santa.py:149-156 | `successes` after `k` sends is at most `k`; `TallyConserved` and `AllSucceed` relate it to the failures |
| SantaDispatch.FailedAddresses | secret_santa.py:149-158 | `failures` after `k` sends has at most `k` entries; `FailedAddressesExact` says which addresses they are |
| SantaDispatch.TallyConserved | secret_santa.py:149-158 | every send is counted once: successes plus failures equal the number of sends |
| SantaDispatch.FailedAddressesExact | secret_santa.py:155-158 | an address is in `failures` exactly when some send to it returned false |
| SantaDispatch.AllSucceed | secret_santa.py:155-156 | when every send succeeds, all are counted as successes and `failures` is empty |
| SantaDispatch.AllFail | secret_santa.py:157-158 | when every send fails, nothing counts as a success and `failures` lists every address in order |
| SantaDispatch.DryRunTally | secret_santa.py:81-158 | a dry run never contacts the server and counts every participant as a success |
| SantaDispatch.MissingPasswordTally | secret_santa.py:89-158 | a live run without a password never contacts the server and lists every address as failed, in order |
| SantaDispatch.SendAll | secret_santa.py:149-158 | the loop makes exactly the assignment's calls in order; its tally is the count of successful outcomes and the failed addresses in order; the two add up to the number of participants |
| SantaDispatch.Mode | secret_santa.py:31-33 | the run's mode as the script computes it: dry run exactly when the flag is given or the process environment's `DRY_RUN` lower-cases to `1`, `true` or `yes` |
| SantaDispatch.Password | secret_santa.py:89 | `password` comes from the process environment when set there, otherwise from the `.env` file |
| SantaDispatch.Outcome | secret_santa.py:124-158 | every ending of the run and exactly when it happens: fewer than two participants quits before shuffling; with two or more, `--confirm` in live mode ends at end of input, or is cancelled when the stripped, lower-cased reply is not affirmative; otherwise `--test-connect` ends with the login test's result, and every remaining run sends (`FinishedConserves`, `DryRunOutcome` and `NoPasswordOutcome` give the tallies) |
| SantaDispatch.ExitStatus | secret_santa.py:124-147 | the script exits with status 1 exactly on end of input at the prompt or a failed login test, otherwise 0 |
| SantaDispatch.FinishedConserves | secret_santa.py:124-161 | whenever the send loop runs, there were at least two participants and each of them is counted once in the summary |
| SantaDispatch.DryRunOutcome | secret_santa.py:81-158 | a dry run (flag or process `DRY_RUN`) with at least two participants and no login test is never cancelled and ends with every participant a success |
| SantaDispatch.NoPasswordOutcome | secret_santa.py:89-158 | a confirmed live run with no password anywhere ends with no success and every address failed, in order; live includes `DRY_RUN` set in the `.env` file only |
| SantaDispatch.FileDryRunSendsLive | secret_santa.py:31-158 | with `DRY_RUN=true` only in the `.env` file and no password, the script runs live and every send fails |
| SantaDispatch.RunScript | secret_santa.py:124-158 | the script stops untouched with fewer than two participants, only permutes the list, ends as `Outcome` says with the mode as written, and sends exactly the assignment's calls when the send loop runs and none otherwise |
| WordGuessing.BankWords | word_guessing_game.py:4 | every word of the bank is non-empty and free of `_` |
| WordGuessing.Initial | word_guessing_game.py:8-9 | the game starts with one `_` per letter and ten attempts |
| WordGuessing.Reveal | word_guessing_game.py:22-27 | a correct letter is shown at each position where the word has it; every other cell keeps its value |
| WordGuessing.Normalize | word_guessing_game.py:13 | the guess read from a line is never longer than the line; `StripLowerCommute` and `StripSpec` say what it keeps |
| WordGuessing.Normalized | word_guessing_game.py:13 | one guess per line read |
| WordGuessing.Step | word_guessing_game.py:15-32 | one turn keeps the buffer's length and takes an attempt exactly on a miss; `StepRefusal`, `StepEffect` and `StepInvariant` give the rest |
| WordGuessing.StepRefusal | word_guessing_game.py:15-20 | an empty or multi-letter guess changes neither the buffer nor the attempts, and is answered as such |
| WordGuessing.StepEffect | word_guessing_game.py:22-32 | a single letter is a hit exactly when it occurs in the word; a hit reveals all its positions, touches nothing else and keeps the attempts; a miss takes one attempt and keeps the buffer |
| WordGuessing.StepInvariant | word_guessing_game.py:11-32 | a turn keeps the buffer consistent with the word, never hides a revealed letter, and keeps attempts within 0 to 10 |
| WordGuessing.HiddenCount | word_guessing_game.py:34 | the count of hidden cells is zero exactly when no `_` is left |
| WordGuessing.FewerHidden | word_guessing_game.py:22-27 | revealing cells without hiding any never raises the hidden count, and lowers it when a hidden cell is revealed |
| WordGuessing.StepProgress | word_guessing_game.py:11-32 | hidden cells plus attempts never grow; a miss lowers them by one; a hit either changes nothing or reveals a new cell |
| WordGuessing.SolvedSpellsWord | word_guessing_game.py:34-35 | a consistent buffer has no `_` left exactly when it spells the word |
| WordGuessing.Misses | word_guessing_game.py:30-31 | there are no more misses than turns |
| WordGuessing.Replay | word_guessing_game.py:11-32 | playing a sequence of guesses from the start gives one verdict per guess and keeps the buffer's length |
| WordGuessing.ReplayInvariant | word_guessing_game.py:11-32 | after any sequence of guesses, the buffer is consistent with the word and the attempts left are ten minus the misses |
| WordGuessing.ReplayExtend | word_guessing_game.py:11-32 | one more guess is one more turn on the state reached so far |
| WordGuessing.StepConsistent | word_guessing_game.py:22-32 | a turn keeps the buffer consistent with the word |
| WordGuessing.PizzaSteps | word_guessing_game.py:22-29 | for `pizza`, the guesses p, i, z, a each hit and reveal their letters |
| WordGuessing.PizzaIsWon | word_guessing_game.py:11-36 | `pizza` is fully revealed by guessing p, i, z and a, with all ten attempts left, and each shorter prefix of those guesses leaves a letter hidden |
| WordGuessing.NormalizeLetter | word_guessing_game.py:13 | a lower-case letter typed alone on a line is read as exactly that letter |
| WordGuessing.PizzaStops | word_guessing_game.py:11-36 | after any prefix of the lines p, i, z, a no attempt is used, and `pizza` is spelled out exactly after all four |
| WordGuessing.PizzaGame | word_guessing_game.py:5-39 | the whole game on `pizza` with the lines p, i, z, a ends in a win with ten attempts left |
| WordGuessing.RanThroughEach | word_guessing_game.py:11-36 | the game was running before each of the first `k` lines exactly when `RanThrough` holds for `k` |
| WordGuessing.RanThroughNext | word_guessing_game.py:11-13 | reading the next line while attempts remain and letters are hidden extends `RanThrough` by one line |
| WordGuessing.Stopped | word_guessing_game.py:34-39 | where the loop stops, no `_` is left exactly when the word is spelled out, at most ten misses happened, and every line read was read while the game ran |
| WordGuessing.Game.constructor | word_guessing_game.py:5-9 | a new game for a playable word is all `_` with ten attempts |
| WordGuessing.Game.Guess | word_guessing_game.py:13-32 | one turn on the array changes the game exactly as `Step` says on the lower-cased, stripped line, and a refused line changes nothing |
| WordGuessing.Game.Turn | word_guessing_game.py:13-36 | one pass of the loop body is `Step` on the line, and the win check reports exactly whether no `_` is left |
| WordGuessing.Game.Run | word_guessing_game.py:11-36 | the loop reads lines only while the game is running; the lines read are replayed exactly; it stops with the lines used up only with attempts left and letters hidden, otherwise at zero attempts or a full word |
| WordGuessing.Game.IsSolved | word_guessing_game.py:34 | the check answers true exactly when no `_` is left in the buffer |
| WordGuessing.Play | word_guessing_game.py:5-39 | the lines consumed are exactly replayed by `Step`, and each was read while attempts remained and letters were hidden, so the loop stops at the first win or at zero attempts; Won exactly when the word is spelled out; Lost exactly when attempts are 0 with letters still hidden; end of input only with attempts left; never more than ten misses |

## Left out

- E-mail transport: building the MIME message, SSL, SMTP and the
  `--debug-smtp` protocol trace are left out. The outcome of each send,
  and of the login test, is an oracle parameter.
- SendEmail: the three kinds of send failure (authentication, SMTP error
  or any other exception) are one outcome, `SendFailed`, because the
  script treats them alike apart from the message it prints.
- All printing is left out. That covers the previews, the debug lines,
  the error hints, the summary lines at secret_santa.py:160-165 and the
  game's messages (the `found` flag only chooses a message). The summary
  prints exactly the two tallies that `SendAll` computes.
- Choosing the `.env` path is left out: `--env-file`, the fallback to
  `secret_santa.env` and the existence checks. The model takes the parsed
  file as a map.
- Parsing the command line with argparse is left out. The flags are
  fields of `Config`.
- The `--sender` default comes from `SENDER_EMAIL`, read before
  `load_dotenv`. The model takes the sender as a parameter.
- Shuffle: the model does not claim a uniform distribution, nor that
  every permutation can be reached. The random source is an arbitrary
  oracle, brought into range as `randbelow(i + 1)` does.
- The fixed participant list at secret_santa.py:118-122 is not built in.
  The run takes any list.
- `random.choice(word_bank)`: the chosen word is a parameter of `Play`.
  `Play` is proved for every playable word, and `BankWords` shows that
  every bank word is one.
- Text.LowerChar: lower-cases ASCII letters only. Python's `str.lower()`
  also maps non-ASCII letters, and can change a string's length: `İ`
  (U+0130) becomes `i` followed by U+0307. The game would then refuse such
  a line as not a single letter and keep its attempts, where the model
  counts a miss.
- `input()` raising `EOFError` in the game ends `Play` with
  `InputExhausted`. The traceback is not modelled.
- The whole run (`Outcome`, `RunScript`) follows the script as written: a `DRY_RUN`
  line in the `.env` file is ignored. The corrected mode `DryRun` is stated and
  proved, but no run is built on it.
- `quit()` and `sys.exit` are the final `RunOutcome` values, with the exit
  statuses given by `ExitStatus`.

## Findings

| source | as written | input that shows it | evidently intended | confidence | as-written member | corrected member |
|---|---|---|---|---|---|---|
| secret_santa.py:31-33,43 | `DRY_RUN` is read from the environment before `load_dotenv` runs, so a `DRY_RUN` line in the `.env` file is never seen | no `--dry-run` flag, `DRY_RUN` unset in the process environment, `DRY_RUN=true` in the `.env` file: the script sends real e-mails | `DRY_RUN` from the `.env` file switches on the dry run, with process values taking precedence as `load_dotenv` gives them | not executed | SantaConfig.DryRunAsWritten (shown by SantaConfig.DryRunInFileIgnored) | SantaConfig.DryRun |
