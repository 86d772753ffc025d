/**
 * The console word-guessing game (word_guessing_game.py): a secret word from
 * a fixed bank, a buffer of revealed letters that starts as one `'_'` per
 * letter, and ten attempts that only wrong guesses use up. The console is a
 * sequence of input lines.
 */
module WordGuessing {
  import opened Text

  const WordBank: seq<string> := ["salame", "fideos", "pizza", "hamburguesa", "banana"]

  /** The mark of a letter not yet guessed. */
  const Hidden: char := '_'

  const MaxAttempts: int := 10

  /** A secret word the game can be played with: not empty, and free of the placeholder. */
  predicate Playable(w: string)
  {
    |w| > 0 && Hidden !in w
  }

  /** Every bank word is playable. */
  lemma BankWords(w: string)
    requires w in WordBank
    ensures Playable(w)
  {
  }

  /** The answer to one input line. */
  datatype Verdict =
    | EmptyInput  // "Please enter a letter."
    | NotSingle   // "Please enter a single letter."
    | Hit         // the letter occurs in the word
    | Miss        // "Wrong guess!", one attempt used

  /** The game's variables: `guessedWord` and `attempts`. */
  datatype State = State(buffer: seq<char>, attempts: int)

  function Initial(word: string): (st: State)
    ensures |st.buffer| == |word| && st.attempts == MaxAttempts
    ensures forall i :: 0 <= i < |word| ==> st.buffer[i] == Hidden
  {
    State(seq(|word|, _ => Hidden), MaxAttempts)
  }

  /** Every cell is still hidden or shows the letter of the word at that position. */
  predicate Consistent(word: string, buffer: seq<char>)
  {
    |buffer| == |word| && forall i :: 0 <= i < |buffer| ==> buffer[i] == Hidden || buffer[i] == word[i]
  }

  /** The buffer after guessing letter `g`: each position holding `g` in the word shows it. */
  function Reveal(word: string, buffer: seq<char>, g: char): (r: seq<char>)
    requires |buffer| == |word|
    ensures |r| == |word|
    ensures forall i :: 0 <= i < |word| ==> r[i] == (if word[i] == g then g else buffer[i])
  {
    seq(|word|, i requires 0 <= i < |word| => if word[i] == g then g else buffer[i])
  }

  /** The guess read from one console line, lower-cased and stripped (word_guessing_game.py:13). */
  function Normalize(line: string): (guess: string)
    ensures |guess| <= |line|
  {
    Strip(Lower(line))
  }

  /** The guesses read from the first `k` console lines of `lines`. */
  function Normalized(lines: seq<string>, k: nat): (gs: seq<string>)
    requires k <= |lines|
    ensures |gs| == k
  {
    if k == 0 then [] else Normalized(lines, k - 1) + [Normalize(lines[k - 1])]
  }

  /**
   * One pass of the loop body for the guess `guess`: an empty or longer
   * guess is refused; a letter of the word is revealed everywhere; any
   * other letter costs an attempt.
   */
  function Step(word: string, st: State, guess: string): (r: (State, Verdict))
    requires |st.buffer| == |word|
    ensures |r.0.buffer| == |word|
    ensures r.0.attempts == (if r.1 == Miss then st.attempts - 1 else st.attempts)
  {
    if guess == [] then (st, EmptyInput)
    else if |guess| != 1 then (st, NotSingle)
    else if guess[0] in word then (State(Reveal(word, st.buffer, guess[0]), st.attempts), Hit)
    else (State(st.buffer, st.attempts - 1), Miss)
  }

  /** A refused guess changes neither the buffer nor the attempts. */
  lemma StepRefusal(word: string, st: State, guess: string)
    requires |st.buffer| == |word|
    requires |guess| != 1
    ensures Step(word, st, guess).0 == st
    ensures Step(word, st, guess).1 == (if guess == [] then EmptyInput else NotSingle)
  {
  }

  /**
   * A hit reveals every position of the guessed letter and touches nothing
   * else; a miss uses exactly one attempt and leaves the buffer alone.
   */
  lemma StepEffect(word: string, st: State, guess: string)
    requires |st.buffer| == |word|
    requires |guess| == 1
    ensures var g, next := guess[0], Step(word, st, guess).0;
      (Step(word, st, guess).1 == Hit <==> g in word)
      && (g in word ==> next.attempts == st.attempts
                        && forall i :: 0 <= i < |word| ==> next.buffer[i] == (if word[i] == g then word[i] else st.buffer[i]))
      && (g !in word ==> next == State(st.buffer, st.attempts - 1))
  {
  }

  /**
   * With a word free of `'_'`, a step keeps the buffer consistent with the
   * word and never hides a revealed cell again, and attempts stay in
   * `0..10` while the loop runs.
   */
  lemma StepInvariant(word: string, st: State, guess: string)
    requires Hidden !in word && Consistent(word, st.buffer)
    requires 0 < st.attempts <= MaxAttempts
    ensures var next := Step(word, st, guess).0;
      Consistent(word, next.buffer)
      && (forall i :: 0 <= i < |word| && st.buffer[i] != Hidden ==> next.buffer[i] == st.buffer[i])
      && 0 <= next.attempts <= MaxAttempts
  {
  }

  /** The number of hidden cells. */
  function HiddenCount(buffer: seq<char>): (n: nat)
    ensures n <= |buffer|
    ensures n == 0 <==> Hidden !in buffer
  {
    if buffer == [] then 0
    else (if buffer[0] == Hidden then 1 else 0) + HiddenCount(buffer[1..])
  }

  /** Revealing cells, and hiding none, lowers the hidden count by at least one. */
  lemma {:induction false} FewerHidden(before: seq<char>, after: seq<char>)
    requires |before| == |after|
    requires forall i :: 0 <= i < |after| && after[i] == Hidden ==> before[i] == Hidden
    ensures HiddenCount(after) <= HiddenCount(before)
    ensures (exists i :: 0 <= i < |after| && before[i] == Hidden && after[i] != Hidden)
            ==> HiddenCount(after) < HiddenCount(before)
  {
    if before != [] {
      assert forall i :: 0 <= i < |after| - 1 && after[1..][i] == Hidden ==> before[1..][i] == Hidden by {
        forall i | 0 <= i < |after| - 1 && after[1..][i] == Hidden ensures before[1..][i] == Hidden {
          assert after[1..][i] == after[i + 1];
        }
      }
      FewerHidden(before[1..], after[1..]);
      if exists i :: 0 <= i < |after| && before[i] == Hidden && after[i] != Hidden {
        var i :| 0 <= i < |after| && before[i] == Hidden && after[i] != Hidden;
        if i > 0 {
          assert before[1..][i - 1] == Hidden && after[1..][i - 1] != Hidden;
        }
      }
    }
  }

  /**
   * Progress: hidden cells plus attempts never grow. A miss lowers them by
   * one, and a hit either changes nothing or reveals a new cell. So a game
   * ends after at most `|word|` useful guesses and 10 misses.
   */
  lemma StepProgress(word: string, st: State, guess: string)
    requires Hidden !in word && Consistent(word, st.buffer)
    ensures var (next, v) := Step(word, st, guess);
      HiddenCount(next.buffer) + next.attempts <= HiddenCount(st.buffer) + st.attempts
      && (v == Miss ==> HiddenCount(next.buffer) + next.attempts == HiddenCount(st.buffer) + st.attempts - 1)
      && (v == Hit ==> next.buffer == st.buffer || HiddenCount(next.buffer) < HiddenCount(st.buffer))
  {
    var (next, v) := Step(word, st, guess);
    if v == Hit {
      FewerHidden(st.buffer, next.buffer);
      if next.buffer != st.buffer {
        var i :| 0 <= i < |word| && next.buffer[i] != st.buffer[i];
        assert st.buffer[i] == Hidden && next.buffer[i] != Hidden;
      }
    }
  }

  /** A consistent buffer with nothing hidden spells the word. */
  lemma SolvedSpellsWord(word: string, buffer: seq<char>)
    requires Hidden !in word && Consistent(word, buffer)
    ensures Hidden !in buffer <==> buffer == word
  {
    if Hidden !in buffer {
      assert forall i :: 0 <= i < |word| ==> buffer[i] == word[i] by {
        forall i | 0 <= i < |word| ensures buffer[i] == word[i] {
          assert buffer[i] in buffer;
        }
      }
    }
  }

  /** How many of the verdicts were misses. */
  function Misses(vs: seq<Verdict>): (n: nat)
    ensures n <= |vs|
  {
    if vs == [] then 0 else Misses(vs[..|vs| - 1]) + (if vs[|vs| - 1] == Miss then 1 else 0)
  }

  /** The state and verdicts after playing `guesses` from the start, one step per guess. */
  function Replay(word: string, guesses: seq<string>): (r: (State, seq<Verdict>))
    ensures |r.0.buffer| == |word| && |r.1| == |guesses|
  {
    if guesses == [] then (Initial(word), [])
    else
      var (st, vs) := Replay(word, guesses[..|guesses| - 1]);
      var (next, v) := Step(word, st, guesses[|guesses| - 1]);
      (next, vs + [v])
  }

  /**
   * After any sequence of guesses the buffer is consistent with the word,
   * and the attempts left are exactly 10 minus the misses so far.
   */
  lemma {:induction false} ReplayInvariant(word: string, guesses: seq<string>)
    ensures Consistent(word, Replay(word, guesses).0.buffer)
    ensures Replay(word, guesses).0.attempts == MaxAttempts - Misses(Replay(word, guesses).1)
  {
    if guesses != [] {
      var prefix := guesses[..|guesses| - 1];
      ReplayInvariant(word, prefix);
      var (st, vs) := Replay(word, prefix);
      var (next, v) := Step(word, st, guesses[|guesses| - 1]);
      assert (vs + [v])[..|vs|] == vs;
      StepConsistent(word, st, guesses[|guesses| - 1]);
    }
  }

  /** Playing one more guess is one more `Step`. */
  lemma ReplayExtend(word: string, guesses: seq<string>, g: string)
    ensures Replay(word, guesses + [g])
            == (Step(word, Replay(word, guesses).0, g).0, Replay(word, guesses).1 + [Step(word, Replay(word, guesses).0, g).1])
  {
    assert (guesses + [g])[..|guesses|] == guesses;
  }

  lemma StepConsistent(word: string, st: State, guess: string)
    requires Consistent(word, st.buffer)
    ensures Consistent(word, Step(word, st, guess).0.buffer)
  {
  }

  /** Each of the guesses p, i, z and a reveals its letters of `"pizza"`. */
  lemma PizzaSteps()
    ensures Initial("pizza") == State("_____", MaxAttempts)
    ensures Step("pizza", State("_____", MaxAttempts), "p") == (State("p____", MaxAttempts), Hit)
    ensures Step("pizza", State("p____", MaxAttempts), "i") == (State("pi___", MaxAttempts), Hit)
    ensures Step("pizza", State("pi___", MaxAttempts), "z") == (State("pizz_", MaxAttempts), Hit)
    ensures Step("pizza", State("pizz_", MaxAttempts), "a") == (State("pizza", MaxAttempts), Hit)
  {
    var w := "pizza";
    assert Initial(w).buffer == "_____";
    assert Reveal(w, "_____", 'p') == "p____";
    assert Reveal(w, "p____", 'i') == "pi___";
    assert Reveal(w, "pi___", 'z') == "pizz_";
    assert Reveal(w, "pizz_", 'a') == "pizza";
  }

  /**
   * The word `"pizza"` is won by guessing p, i, z and a, with no attempt
   * used; before the last guess some letter is still hidden.
   */
  lemma PizzaIsWon()
    ensures Replay("pizza", []).0 == State("_____", MaxAttempts)
    ensures Replay("pizza", ["p"]).0 == State("p____", MaxAttempts)
    ensures Replay("pizza", ["p", "i"]).0 == State("pi___", MaxAttempts)
    ensures Replay("pizza", ["p", "i", "z"]).0 == State("pizz_", MaxAttempts)
    ensures Replay("pizza", ["p", "i", "z", "a"]).0 == State("pizza", MaxAttempts)
  {
    var w := "pizza";
    PizzaSteps();
    ReplayExtend(w, [], "p");
    assert [] + ["p"] == ["p"];
    ReplayExtend(w, ["p"], "i");
    assert ["p"] + ["i"] == ["p", "i"];
    ReplayExtend(w, ["p", "i"], "z");
    assert ["p", "i"] + ["z"] == ["p", "i", "z"];
    ReplayExtend(w, ["p", "i", "z"], "a");
    assert ["p", "i", "z"] + ["a"] == ["p", "i", "z", "a"];
  }

  /** The game's mutable state: the revealed buffer, changed in place, and the attempts left. */
  class Game {
    const word: string
    const guessedWord: array<char>
    var attempts: int

    ghost predicate Valid()
      reads this, guessedWord
    {
      Hidden !in word && Consistent(word, guessedWord[..]) && 0 <= attempts <= MaxAttempts
    }

    /** The abstract value of the game's variables. */
    ghost function Current(): State
      reads this, guessedWord
    {
      State(guessedWord[..], attempts)
    }

    /** A new game (word_guessing_game.py:5-8); the randomly chosen word is a parameter. */
    constructor (w: string)
      requires Playable(w)
      ensures Valid() && fresh(guessedWord)
      ensures word == w && Current() == Initial(w)
    {
      word := w;
      guessedWord := new char[|w|](_ => Hidden);
      attempts := MaxAttempts;
      new;
      assert guessedWord[..] == Initial(w).buffer;
    }

    /** One pass of the loop body before the win check. */
    method Guess(line: string) returns (v: Verdict)
      requires Valid() && attempts > 0
      modifies guessedWord, `attempts
      ensures Valid()
      ensures (Current(), v) == Step(word, old(Current()), Normalize(line))
      ensures v == EmptyInput || v == NotSingle ==> Current() == old(Current())
    {
      var guess := Strip(Lower(line));
      if guess == [] {
        return EmptyInput;
      }
      if |guess| != 1 {
        return NotSingle;
      }
      var g := guess[0];
      if g in word {
        var i := 0;
        while i < |word|
          modifies guessedWord
          invariant 0 <= i <= |word|
          invariant forall k :: 0 <= k < |word| ==>
                      guessedWord[k] == (if k < i && word[k] == g then g else old(guessedWord[k]))
        {
          if word[i] == g {
            guessedWord[i] := g;
          }
          i := i + 1;
        }
        assert guessedWord[..] == Reveal(word, old(guessedWord[..]), g);
        v := Hit;
      } else {
        attempts := attempts - 1;
        v := Miss;
      }
    }

    /**
     * One pass of the loop body: the turn, then the win check. A refused line
     * skips the check with `continue`; it changed nothing, so the word is
     * still unsolved then.
     */
    method Turn(line: string) returns (v: Verdict, solved: bool)
      requires Valid() && attempts > 0 && Hidden in guessedWord[..]
      modifies guessedWord, `attempts
      ensures Valid()
      ensures (Current(), v) == Step(word, old(Current()), Normalize(line))
      ensures solved <==> Hidden !in guessedWord[..]
    {
      v := Guess(line);
      if v == Hit || v == Miss {
        solved := IsSolved();
      } else {
        solved := false;
      }
    }

    /**
     * The `while attempts > 0` loop of a new game over the console lines
     * `inputs`. It stops at the first win, when attempts run out, or when
     * the lines run out (`exhausted`).
     */
    method Run(inputs: seq<string>) returns (verdicts: seq<Verdict>, exhausted: bool)
      requires Valid() && |word| > 0 && Current() == Initial(word)
      modifies this, guessedWord
      ensures Valid()
      ensures |verdicts| <= |inputs|
      ensures (Current(), verdicts) == Replay(word, Normalized(inputs, |verdicts|))
      ensures RanThrough(word, inputs, |verdicts|)
      ensures exhausted ==> |verdicts| == |inputs| && attempts > 0 && Hidden in guessedWord[..]
      ensures !exhausted ==> attempts == 0 || Hidden !in guessedWord[..]
    {
      var k := 0;
      verdicts := [];
      exhausted := false;
      var solved := false;
      ghost var played: seq<string> := [];
      assert guessedWord[..][0] == Hidden;
      while attempts > 0
        invariant Valid()
        invariant 0 <= k <= |inputs| && k == |verdicts|
        invariant played == Normalized(inputs, k)
        invariant Current() == Replay(word, played).0 && verdicts == Replay(word, played).1
        invariant !solved && Hidden in guessedWord[..]
        invariant RanThrough(word, inputs, k)
        decreases |inputs| - k
      {
        if k == |inputs| {
          exhausted := true;
          break;
        }
        RanThroughNext(word, inputs, k, Current());
        var v;
        v, solved := Turn(inputs[k]);
        ReplayExtend(word, played, Normalize(inputs[k]));
        played := played + [Normalize(inputs[k])];
        verdicts := verdicts + [v];
        k := k + 1;
        if solved {
          break;
        }
      }
    }

    /** The win test (word_guessing_game.py:34): no position of the buffer is still hidden. */
    method IsSolved() returns (solved: bool)
      ensures solved <==> Hidden !in guessedWord[..]
    {
      var i := 0;
      while i < guessedWord.Length
        invariant 0 <= i <= guessedWord.Length
        invariant Hidden !in guessedWord[..i]
      {
        if guessedWord[i] == Hidden {
          assert guessedWord[..][i] == Hidden;
          return false;
        }
        assert guessedWord[..i + 1] == guessedWord[..i] + [guessedWord[i]];
        i := i + 1;
      }
      assert guessedWord[..i] == guessedWord[..];
      return true;
    }
  }

  /** The loop condition and the negated win check both hold: another line is read. */
  predicate Running(st: State)
  {
    st.attempts > 0 && Hidden in st.buffer
  }

  /** The game was running before line `j` of `inputs` was read. */
  predicate RunningBefore(w: string, inputs: seq<string>, j: nat)
    requires j <= |inputs|
  {
    Running(Replay(w, Normalized(inputs, j)).0)
  }

  /** `p` holds at each of `0 .. k - 1`, checked one index at a time. */
  predicate Throughout(p: nat -> bool, k: nat)
  {
    k == 0 || (Throughout(p, k - 1) && p(k - 1))
  }

  lemma {:induction false} ThroughoutEach(p: nat -> bool, k: nat)
    ensures Throughout(p, k) <==> forall j :: 0 <= j < k ==> p(j)
  {
    if k > 0 {
      ThroughoutEach(p, k - 1);
    }
  }

  /** Whether the game was running before line `j` of `inputs` was read. */
  function RunningBeforeLine(w: string, inputs: seq<string>): nat -> bool
  {
    (j: nat) => j <= |inputs| && RunningBefore(w, inputs, j)
  }

  /** The game was running before each of the first `k` lines of `inputs` was read. */
  predicate RanThrough(w: string, inputs: seq<string>, k: nat)
  {
    Throughout(RunningBeforeLine(w, inputs), k)
  }

  /** `RanThrough` holds exactly when the game was running before every one of those lines. */
  lemma RanThroughEach(w: string, inputs: seq<string>, k: nat)
    requires k <= |inputs|
    ensures RanThrough(w, inputs, k) <==> forall j :: 0 <= j < k ==> RunningBefore(w, inputs, j)
  {
    ThroughoutEach(RunningBeforeLine(w, inputs), k);
    forall j | 0 <= j < k
      ensures RunningBeforeLine(w, inputs)(j) == RunningBefore(w, inputs, j)
    {
    }
  }

  /** Reading line `k` while the game runs extends `RanThrough` by one line. */
  lemma RanThroughNext(w: string, inputs: seq<string>, k: nat, st: State)
    requires k < |inputs| && RanThrough(w, inputs, k)
    requires st == Replay(w, Normalized(inputs, k)).0 && Running(st)
    ensures RanThrough(w, inputs, k + 1)
  {
  }

  /**
   * What holds wherever the script stops after reading `k` lines: the buffer
   * has no `_` left exactly when it spells the word, at most ten misses
   * happened, and every line was read while the game was running.
   */
  lemma Stopped(w: string, inputs: seq<string>, k: nat, st: State)
    requires Hidden !in w && k <= |inputs|
    requires st == Replay(w, Normalized(inputs, k)).0 && 0 <= st.attempts
    requires RanThrough(w, inputs, k)
    ensures Hidden !in st.buffer <==> st.buffer == w
    ensures Misses(Replay(w, Normalized(inputs, k)).1) <= MaxAttempts
    ensures forall j :: 0 <= j < k ==> RunningBefore(w, inputs, j)
  {
    ReplayInvariant(w, Normalized(inputs, k));
    SolvedSpellsWord(w, st.buffer);
    RanThroughEach(w, inputs, k);
  }

  /** How the script ends. */
  datatype Ending =
    | Won             // "Congratulations!!", the loop is left by `break`
    | Lost            // "You ran out of attempts!"
    | InputExhausted  // `input()` meets end of file and the script stops with an error

  /**
   * The whole script for the secret word `w` and the console lines `inputs`:
   * the loop runs while attempts remain and stops at the first win. The
   * lines consumed are replayed exactly by `Replay`; Won means the word is
   * spelled out, Lost means no attempts are left with letters still hidden,
   * and at most ten misses ever happen. Every line was read while the game
   * was still running, so the loop stops at the first win and at zero
   * attempts.
   */
  method Play(w: string, inputs: seq<string>)
    returns (ending: Ending, revealed: seq<char>, attemptsLeft: int, verdicts: seq<Verdict>)
    requires Playable(w)
    ensures |verdicts| <= |inputs|
    ensures (State(revealed, attemptsLeft), verdicts) == Replay(w, Normalized(inputs, |verdicts|))
    ensures ending == Won <==> revealed == w
    ensures ending == Lost <==> attemptsLeft == 0 && Hidden in revealed
    ensures ending == InputExhausted ==> |verdicts| == |inputs| && attemptsLeft > 0
    ensures 0 <= attemptsLeft && Misses(verdicts) <= MaxAttempts
    ensures forall j :: 0 <= j < |verdicts| ==> RunningBefore(w, inputs, j)
  {
    var game := new Game(w);
    var exhausted;
    verdicts, exhausted := game.Run(inputs);
    revealed, attemptsLeft := game.guessedWord[..], game.attempts;
    assert game.Current() == State(revealed, attemptsLeft);
    Stopped(w, inputs, |verdicts|, game.Current());
    if exhausted {
      ending := InputExhausted;
    } else if attemptsLeft == 0 && Hidden in revealed {
      ending := Lost;
    } else {
      ending := Won;
    }
  }

  /** A lower-case letter typed alone on a line is read as that letter. */
  lemma NormalizeLetter(c: char)
    requires 'a' <= c <= 'z'
    ensures Normalize([c]) == [c]
  {
    assert Lower([c]) == [c];
    assert TrimStart([c]) == [c];
    assert TrimEnd([c]) == [c];
  }

  /** The console lines of a winning game of `"pizza"`. */
  const PizzaLines: seq<string> := ["p", "i", "z", "a"]

  /**
   * After the first `k` lines of `PizzaLines` no attempt is used, and the
   * word is spelled out exactly after all four.
   */
  lemma PizzaStops(k: nat)
    requires k <= |PizzaLines|
    ensures Replay("pizza", Normalized(PizzaLines, k)).0.attempts == MaxAttempts
    ensures Replay("pizza", Normalized(PizzaLines, k)).0.buffer == "pizza" <==> k == 4
  {
    NormalizeLetter('p');
    NormalizeLetter('i');
    NormalizeLetter('z');
    NormalizeLetter('a');
    assert Normalized(PizzaLines, 1) == ["p"];
    assert Normalized(PizzaLines, 2) == ["p", "i"];
    assert Normalized(PizzaLines, 3) == ["p", "i", "z"];
    assert Normalized(PizzaLines, 4) == ["p", "i", "z", "a"];
    PizzaIsWon();
  }

  /** Playing `"pizza"` with the lines p, i, z and a ends in a win with all ten attempts left. */
  method PizzaGame() returns (ending: Ending, attemptsLeft: int)
    ensures ending == Won && attemptsLeft == MaxAttempts
  {
    var revealed, verdicts;
    ending, revealed, attemptsLeft, verdicts := Play("pizza", PizzaLines);
    PizzaStops(|verdicts|);
  }
}
