/**
 * A short session in the order shell_loop drives the shell: each line is
 * first offered to the history, then executed (TypeWord and Skip).
 */
module Session {
  import opened CStrings
  import opened Digits
  import opened Tokenizer
  import opened HistoryRing
  import opened Shell

  const TYPED: seq<string> := ["ls", "pwd", "date"]

  /** A single word is one token, and it is a built-in exactly when it is one of the six names. */
  lemma OneWord(w: string)
    requires w != [] && NoBlank(w) && NUL !in w
    ensures Plain(w) == if w in BUILTINS then Builtin([w]) else External([w])
  {
    TokensOfRun(w, []);
    assert w + [] == w;
    IsBuiltinIff(w);
  }

  /** `!!` replays date, the last command typed. */
  lemma LastReplays(sh: Shell)
    requires sh.Valid() && sh.recorded == TYPED
    ensures sh.Dispatch("!!") == Replay("date", External(["date"]))
  {
    sh.DispatchLast("!!");
    DateIsExternal(sh);
  }

  /** date is not one of the six built-in names. */
  lemma DateIsExternal(sh: Shell)
    requires sh.Valid()
    ensures sh.Dispatch("date") == External(["date"])
  {
    OneWord("date");
  }

  /** pwd is one of the six built-in names. */
  lemma PwdIsBuiltin(sh: Shell)
    requires sh.Valid()
    ensures sh.Dispatch("pwd") == Builtin(["pwd"])
  {
    OneWord("pwd");
  }

  /** history is one of the six built-in names. */
  lemma HistoryIsBuiltin(sh: Shell)
    requires sh.Valid()
    ensures sh.Dispatch("history") == Builtin(["history"])
  {
    OneWord("history");
  }

  /** `!2` replays pwd, the second command typed. */
  lemma SecondReplays(sh: Shell)
    requires sh.Valid() && sh.recorded == TYPED
    ensures sh.Dispatch("!2") == Replay("pwd", Builtin(["pwd"]))
  {
    assert "!2"[1..] == "2" + [];
    LeadingDigitsOfDigits("2", []);
    sh.DispatchNumbered("!2");
    PwdIsBuiltin(sh);
  }

  /** `!99` names no recorded command. */
  lemma NinetyNineMissing(sh: Shell)
    requires sh.Valid() && sh.recorded == TYPED
    ensures sh.Dispatch("!99") == NotFound
  {
    assert "!99"[1..] == "99" + [];
    LeadingDigitsOfDigits("99", []);
    sh.DispatchNumbered("!99");
  }

  /** `!x` names no number. */
  lemma LetterInvalid(sh: Shell)
    requires sh.Valid()
    ensures sh.Dispatch("!x") == InvalidNumber
  {
    assert "!x"[1..] == "x";
    sh.DispatchNumbered("!x");
  }

  /** `!99` names no recorded command, `!x` names no number, `!` alone asks for one. */
  lemma Misses(sh: Shell)
    requires sh.Valid() && sh.recorded == TYPED
    ensures sh.Dispatch("!99") == NotFound
    ensures sh.Dispatch("!x") == InvalidNumber
    ensures sh.Dispatch("!") == Usage
  {
    NinetyNineMissing(sh);
    LetterInvalid(sh);
    sh.DispatchUsage();
  }

  /**
   * One turn of shell_loop on a one-word line that add_to_history accepts:
   * the word is recorded, then executed, as a built-in exactly when it is one
   * of the six names.
   */
  method TypeWord(sh: Shell, w: string) returns (v: Verdict)
    requires sh.Valid() && NUL !in w && w != [] && NoBlank(w) && w[0] != '!' && w != "history"
    modifies sh, sh.history
    ensures sh.Valid() && sh.recorded == old(sh.recorded) + [w]
    ensures v == if w in BUILTINS then Builtin([w]) else External([w])
  {
    RecordableIff(w);
    sh.AddToHistory(w);
    v := sh.ExecuteCommand(w);
    OneWord(w);
  }

  /**
   * One turn of shell_loop on a line that add_to_history filters out: nothing
   * is recorded, then the line is executed against the history as it stands.
   */
  method Skip(sh: Shell, c: string) returns (v: Verdict)
    requires sh.Valid() && NUL !in c && (c == [] || c[0] == '!' || c == "history")
    modifies sh, sh.history
    ensures sh.Valid() && sh.recorded == old(sh.recorded) && sh.historyCount == old(sh.historyCount)
    ensures v == sh.Dispatch(c)
  {
    RecordableIff(c);
    sh.AddToHistory(c);
    v := sh.ExecuteCommand(c);
  }

  /** ls, pwd and date entered in a fresh shell: recorded in order, ls and date run externally, pwd as a built-in. */
  method TypeCommands() returns (sh: Shell, ls: Verdict, pwd: Verdict, date: Verdict)
    ensures fresh(sh) && fresh(sh.history) && sh.Valid() && sh.recorded == TYPED
    ensures ls == External(["ls"]) && pwd == Builtin(["pwd"]) && date == External(["date"])
  {
    sh := new Shell();
    ls := TypeWord(sh, "ls");
    assert sh.recorded == ["ls"];
    pwd := TypeWord(sh, "pwd");
    assert sh.recorded == ["ls", "pwd"];
    date := TypeWord(sh, "date");
  }

  /** After ls, pwd and date: `!!` entered replays date and `!2` entered replays pwd; neither is recorded. */
  method ReplayHits() returns (last: Verdict, second: Verdict)
    ensures last == Replay("date", External(["date"]))
    ensures second == Replay("pwd", Builtin(["pwd"]))
  {
    var sh, _, _, _ := TypeCommands();
    last := Skip(sh, "!!");
    LastReplays(sh);
    second := Skip(sh, "!2");
    SecondReplays(sh);
  }

  /** After ls, pwd and date: `!99` entered is not found, `!` alone is the usage message, `!x` is an invalid number. */
  method ReplayMisses() returns (missing: Verdict, bare: Verdict, invalid: Verdict)
    ensures missing == NotFound && bare == Usage && invalid == InvalidNumber
  {
    var sh, _, _, _ := TypeCommands();
    missing := Skip(sh, "!99");
    NinetyNineMissing(sh);
    bare := Skip(sh, "!");
    sh.DispatchUsage();
    invalid := Skip(sh, "!x");
    LetterInvalid(sh);
  }

  /** `history` entered runs the built-in without being recorded; the listing numbers the three commands 1 to 3. */
  method HistoryScenario() returns (listed: Verdict, listing: seq<string>)
    ensures listed == Builtin(["history"])
    ensures listing == [HEADER, "  1: ls\n", "  2: pwd\n", "  3: date\n"]
  {
    var sh, _, _, _ := TypeCommands();
    listed := Skip(sh, "history");
    HistoryIsBuiltin(sh);
    TypedListing();
    listing := sh.PrintHistory();
  }

  /** The listing of the three typed commands. */
  lemma TypedListing()
    ensures Listing(Window(TYPED, HISTORY_SIZE), 3) == [HEADER, "  1: ls\n", "  2: pwd\n", "  3: date\n"]
  {
    assert Window(TYPED, HISTORY_SIZE) == TYPED;
    assert Decimal(1) == "1" && Decimal(2) == "2" && Decimal(3) == "3";
    ListingLinesAt(TYPED, 1, 0);
    ListingLinesAt(TYPED, 1, 1);
    ListingLinesAt(TYPED, 1, 2);
    assert ListingLine(1, "ls") == "  1: ls\n";
    assert ListingLine(2, "pwd") == "  2: pwd\n";
    assert ListingLine(3, "date") == "  3: date\n";
    var lines := ListingLines(TYPED, 1);
    assert |lines| == 3;
    assert lines == ["  1: ls\n", "  2: pwd\n", "  3: date\n"];
  }
}
