/**
 * The shell's state and command classification: the Shell record with its
 * history ring buffer (add_to_history, get_history_command, print_history),
 * is_builtin_command, and the `!`, `!!`, `!n` handling of execute_command.
 * Running a command is modelled by the Verdict it reaches, not by its effects.
 */
module Shell {
  import opened Wrappers
  import opened CStrings
  import opened Digits
  import opened Tokenizer
  import opened HistoryRing

  /**
   * execute_command on a line that is not a replay: no tokens means nothing
   * to do, otherwise the first token selects a built-in or an external program.
   */
  function Plain(command: string): Verdict {
    var args := Arguments(command);
    if args == [] then Ignored
    else if IsBuiltinCommand(args[0]) then Builtin(args)
    else External(args)
  }

  /**
   * The rest of execute_command: parse_command, then is_builtin_command on the
   * first argument. For a C string, the line goes to a built-in exactly when its
   * first token is one of the six names.
   */
  method ExecutePlain(command: string) returns (v: Verdict)
    ensures v == Plain(command)
    ensures NUL !in command ==>
      var args := Arguments(command);
      v == if args == [] then Ignored else if args[0] in BUILTINS then Builtin(args) else External(args)
  {
    var args := ParseCommand(command);
    if |args| == 0 {
      return Ignored;
    }
    if NUL !in command {
      TokensAvoid(command, NUL);
      IsBuiltinIff(args[0]);
    }
    if IsBuiltinCommand(args[0]) {
      v := Builtin(args);
    } else {
      v := External(args);
    }
  }

  /** The number of history slots. */
  const HISTORY_SIZE: nat := 10

  const BUILTINS: set<string> := {"exit", "history", "clear", "cd", "pwd", "help"}

  /**
   * add_to_history's recording filter: an empty command, a replay command
   * (starting with `!`) and the command `history` itself are not recorded.
   */
  predicate Recordable(command: string) {
    |command| != 0 && command[0] != '!' && Compare(command, "history") != 0
  }

  /** The filter compares with my_strcmp; for C strings that is plain inequality with "history". */
  lemma RecordableIff(command: string)
    requires NUL !in command
    ensures Recordable(command) <==> command != [] && command[0] != '!' && command != "history"
  {
    CompareZeroIff(command, "history");
  }

  /** is_builtin_command: the six my_strcmp tests. */
  predicate IsBuiltinCommand(command: string) {
    Compare(command, "exit") == 0 || Compare(command, "history") == 0 ||
    Compare(command, "clear") == 0 || Compare(command, "cd") == 0 ||
    Compare(command, "pwd") == 0 || Compare(command, "help") == 0
  }

  /** For a C string, is_builtin_command holds exactly for the six built-in names. */
  lemma IsBuiltinIff(command: string)
    requires NUL !in command
    ensures IsBuiltinCommand(command) <==> command in BUILTINS
  {
    CompareZeroIff(command, "exit");
    CompareZeroIff(command, "history");
    CompareZeroIff(command, "clear");
    CompareZeroIff(command, "cd");
    CompareZeroIff(command, "pwd");
    CompareZeroIff(command, "help");
  }

  /** What executing one command line comes to. */
  datatype Verdict =
    | Ignored                               // empty line, or no tokens
    | Usage                                 // a bare `!`
    | NoPrevious                            // `!!` with an empty history
    | InvalidNumber                         // `!` followed by a number that is 0 or no digits
    | NotFound                              // the history has no such entry
    | Replay(target: string, outcome: Verdict)  // "Executing: target", then target is executed
    | Builtin(args: seq<string>)            // handed to execute_builtin
    | External(args: seq<string>)           // handed to execute_external_command

  /** How the `!` branch of execute_command ends before any recursion: with a verdict, or with the command to replay. */
  datatype Lookup = Settled(verdict: Verdict) | Found(target: string)

  /** How many replays are nested in a verdict: the depth of execute_command's recursion. */
  function ReplayDepth(v: Verdict): nat {
    if v.Replay? then 1 + ReplayDepth(v.outcome) else 0
  }

  predicate IsReplayCommand(command: string) {
    command != [] && command[0] == '!'
  }

  /** The number `!n` names: the value of the digits right after the `!` (0 when there are none). */
  function CommandNumber(command: string): nat
    requires command != []
  {
    Value(LeadingDigits(command[1..]))
  }

  /** execute_command's digit accumulation for `!n`, stopping at the first non-digit. */
  method ParseCommandNumber(command: string) returns (cmdNum: nat)
    requires command != []
    ensures cmdNum == CommandNumber(command)
  {
    cmdNum := 0;
    var i := 1;
    while i < |command| && IsDigit(command[i])
      invariant 1 <= i <= |command|
      invariant AllDigits(command[1..i])
      invariant cmdNum == Value(command[1..i])
    {
      assert command[1..i + 1] == command[1..i] + [command[i]];
      ValueAppend(command[1..i], command[i]);
      cmdNum := cmdNum * 10 + DigitValue(command[i]);
      i := i + 1;
    }
    assert command[1..] == command[1..i] + command[i..];
    LeadingDigitsOfDigits(command[1..i], command[i..]);
  }

  /** Writing a number after `!` names that number. */
  lemma CommandNumberOfDecimal(n: nat)
    ensures CommandNumber("!" + Decimal(n)) == n
  {
    var command := "!" + Decimal(n);
    assert command[1..] == Decimal(n) + [];
    LeadingDigitsOfDigits(Decimal(n), []);
    ValueOfDecimal(n);
  }

  const HEADER: string := "Command History:\n"
  const PLACEHOLDER: string := "  (no commands yet)\n"

  /** One line of the history listing: two spaces, the display number, a colon, the command. */
  function ListingLine(number: nat, entry: string): string {
    "  " + Decimal(number) + ": " + entry + "\n"
  }

  /** The lines for a window of entries whose oldest has display number first. */
  function ListingLines(window: seq<string>, first: nat): (lines: seq<string>)
    ensures |lines| == |window|
  {
    if window == [] then [] else ListingLines(window[..|window| - 1], first) + [ListingLine(first + |window| - 1, window[|window| - 1])]
  }

  /** Line i of the listing shows display number first + i and entry i. */
  lemma {:induction false} ListingLinesAt(window: seq<string>, first: nat, i: nat)
    requires i < |window|
    ensures ListingLines(window, first)[i] == ListingLine(first + i, window[i])
  {
    var last := |window| - 1;
    if i < last {
      ListingLinesAt(window[..last], first, i);
    }
  }

  /** One more entry of the window adds its line. */
  lemma ListingStep(window: seq<string>, first: nat, i: nat)
    requires i < |window|
    ensures ListingLines(window[..i + 1], first) == ListingLines(window[..i], first) + [ListingLine(first + i, window[i])]
  {
    assert window[..i + 1][..i] == window[..i];
  }

  /**
   * print_history's loop over the live slots (start + i) % n, i < size: each
   * entry with its display number first + i, the number's digits built by
   * IntToString.
   */
  method ListEntries(history: array<Option<string>>, start: nat, size: nat, first: nat, ghost live: seq<string>)
    returns (lines: seq<string>)
    requires history.Length == HISTORY_SIZE && |live| == size && 1 <= first && first + size <= INT_MAX + 1
    requires Holds(history[..], start, live)
    ensures lines == ListingLines(live, first)
  {
    lines := [];
    var i := 0;
    while i < size
      invariant 0 <= i <= size
      invariant lines == ListingLines(live[..i], first)
    {
      var index := (start + i) % HISTORY_SIZE;
      Wrap(start, i, HISTORY_SIZE);
      assert history[index] == Some(live[i]);
      if history[index].Some? {
        var cmdNum := first + i;
        var numStr := IntToString(cmdNum);
        ListingStep(live, first, i);
        lines := lines + ["  " + numStr + ": " + history[index].value + "\n"];
      }
      i := i + 1;
    }
    assert live[..i] == live;
  }

  /**
   * What print_history prints for the live window of a history that has
   * recorded count commands: a header, then a placeholder when the window is
   * empty, or one numbered line per entry, oldest first.
   */
  function Listing(window: seq<string>, count: nat): seq<string>
    requires |window| <= count
  {
    if window == [] then [HEADER, PLACEHOLDER] else [HEADER] + ListingLines(window, count - |window| + 1)
  }

  /** The Shell record: the history ring buffer and its counters. */
  class Shell {
    /** The ring of HISTORY_SIZE slots. */
    const history: array<Option<string>>
    /** Every command ever recorded. */
    var historyCount: nat
    /** The slot of the oldest live entry. */
    var historyStart: nat
    /** The number of live entries. */
    var currentSize: nat
    /** The commands recorded so far, oldest first; history keeps the last HISTORY_SIZE of them. */
    ghost var recorded: seq<string>

    ghost predicate Valid()
      reads this, history
    {
      history.Length == HISTORY_SIZE &&
      historyCount == |recorded| &&
      Keeps(history[..], historyStart, currentSize, recorded) &&
      (forall j :: 0 <= j < |recorded| ==> Recordable(recorded[j]))
    }

    /** The live entries, oldest first. */
    ghost function Live(): seq<string>
      reads this
    {
      Window(recorded, HISTORY_SIZE)
    }

    /** init_shell: every slot empty, all counters zero. */
    constructor ()
      ensures Valid() && fresh(history) && recorded == []
      ensures historyCount == 0 && historyStart == 0 && currentSize == 0
      ensures forall k :: 0 <= k < HISTORY_SIZE ==> history[k] == None
    {
      history := new Option<string>[HISTORY_SIZE](_ => None);
      historyCount, historyStart, currentSize := 0, 0, 0;
      recorded := [];
      new;
      EmptyHolds(history[..]);
    }

    /** The slot computation of get_history_command and print_history reaches live entry i. */
    lemma LiveSlot(i: nat)
      requires Valid() && i < currentSize
      ensures history[(historyStart + i) % HISTORY_SIZE] == Some(recorded[historyCount - currentSize + i])
      ensures Live()[i] == recorded[historyCount - currentSize + i]
      ensures Recordable(recorded[historyCount - currentSize + i])
    {
      KeptAt(history[..], historyStart, currentSize, recorded, i);
      Wrap(historyStart, i, HISTORY_SIZE);
    }

    /**
     * add_to_history: a filtered command changes nothing; any other is
     * stored as Stored describes.
     */
    method AddToHistory(command: string)
      requires Valid()
      modifies this, history
      ensures Valid()
      ensures !Recordable(command) ==>
        historyCount == old(historyCount) && historyStart == old(historyStart) &&
        currentSize == old(currentSize) && history[..] == old(history[..]) && recorded == old(recorded)
      ensures Recordable(command) ==> Stored(command)
      ensures Recordable(command) ==>
        GetHistoryCommand(historyCount) == Some(command) &&
        history[(historyStart + currentSize - 1) % HISTORY_SIZE] == Some(command)
    {
      if |command| == 0 {
        return;
      }
      if command[0] == '!' || Compare(command, "history") == 0 {
        return;
      }
      Store(command);
      Newest();
    }

    /**
     * The effect of storing command: it is written at slot (start + size) %
     * HISTORY_SIZE and no other slot changes; below capacity size grows and start
     * stays, at capacity size stays and start advances by one; the count
     * grows by one and command is the latest recorded.
     */
    twostate predicate Stored(command: string)
      reads this, history
    {
      history.Length == HISTORY_SIZE &&
      var index := (old(historyStart) + old(currentSize)) % HISTORY_SIZE;
      history[index] == Some(command) &&
      (forall k :: 0 <= k < HISTORY_SIZE && k != index ==> history[k] == old(history[k])) &&
      historyCount == old(historyCount) + 1 && recorded == old(recorded) + [command] &&
      (old(currentSize) < HISTORY_SIZE ==> currentSize == old(currentSize) + 1 && historyStart == old(historyStart)) &&
      (old(currentSize) == HISTORY_SIZE ==> currentSize == HISTORY_SIZE && historyStart == (old(historyStart) + 1) % HISTORY_SIZE)
    }

    /** The accepted half of add_to_history. */
    method Store(command: string)
      requires Valid() && Recordable(command)
      modifies this, history
      ensures Valid() && Stored(command)
    {
      ghost var slots := history[..];
      ghost var before := recorded;
      ghost var start, size := historyStart, currentSize;
      var index := (historyStart + currentSize) % HISTORY_SIZE;
      if currentSize == HISTORY_SIZE {
        historyStart := (historyStart + 1) % HISTORY_SIZE;
      } else {
        currentSize := currentSize + 1;
      }
      history[index] := Some(command);
      historyCount := historyCount + 1;
      recorded := recorded + [command];
      if size < HISTORY_SIZE {
        Wrap(start, size, HISTORY_SIZE);
      }
      assert index == Next(start, size, HISTORY_SIZE);
      assert history[..] == slots[index := Some(command)];
      Record(slots, start, size, before, command, history[..], historyStart, currentSize);
      assert forall j :: 0 <= j < |before| ==> recorded[j] == before[j];
    }

    /**
     * The latest recorded command sits at the `!!` index (start + size - 1) %
     * HISTORY_SIZE and has display number count.
     */
    lemma Newest()
      requires Valid() && historyCount > 0
      ensures currentSize > 0
      ensures history[(historyStart + currentSize - 1) % HISTORY_SIZE] == Some(recorded[historyCount - 1])
      ensures GetHistoryCommand(historyCount) == Some(recorded[historyCount - 1])
    {
      LiveSlot(currentSize - 1);
    }

    /**
     * get_history_command: display numbers count every recorded command from
     * 1; number n is found exactly when it is one of the last HISTORY_SIZE of them.
     */
    function GetHistoryCommand(cmdNum: int): (r: Option<string>)
      reads this, history
      requires Valid()
      ensures r.Some? <==> 1 <= cmdNum <= historyCount && historyCount - HISTORY_SIZE < cmdNum
      ensures r.Some? ==> r.value == recorded[cmdNum - 1] && Recordable(r.value)
    {
      if cmdNum <= 0 then None
      else
        var relativePos := cmdNum - (historyCount - currentSize + 1);
        if relativePos < 0 || relativePos >= currentSize then None
        else
          LiveSlot(relativePos);
          history[(historyStart + relativePos) % HISTORY_SIZE]
    }

    /**
     * The command a replay names: for `!!` the entry at the `!!` index
     * (start + size - 1) % HISTORY_SIZE, for `!n` get_history_command's answer
     * for the number n.
     */
    function Target(command: string): (r: Option<string>)
      reads this, history
      requires Valid() && IsReplayCommand(command) && |command| > 1
      ensures command[1] == '!' ==>
        (r.Some? <==> historyCount > 0) && (r.Some? ==> r.value == recorded[historyCount - 1])
      ensures command[1] != '!' ==> r == GetHistoryCommand(CommandNumber(command))
      ensures r.Some? ==> Recordable(r.value)
    {
      if command[1] == '!' then
        if currentSize > 0 then
          LiveSlot(currentSize - 1);
          history[(historyStart + currentSize - 1) % HISTORY_SIZE]
        else None
      else GetHistoryCommand(CommandNumber(command))
    }

    /**
     * execute_command, as the verdict it reaches. A replay resolves its
     * target and executes that, by the same rules.
     */
    function Dispatch(command: string): Verdict
      reads this, history
      requires Valid()
      decreases if IsReplayCommand(command) then 1 else 0
    {
      if command == [] then Ignored
      else if command[0] == '!' then
        if |command| == 1 then Usage
        else if command[1] == '!' && currentSize == 0 then NoPrevious
        else if command[1] != '!' && CommandNumber(command) == 0 then InvalidNumber
        else
          match Target(command)
          case None => NotFound
          case Some(t) => Replay(t, Dispatch(t))
      else Plain(command)
    }

    /**
     * execute_command, following its control flow: an empty line is ignored,
     * a `!` command is resolved and, when it names an entry, that entry is
     * executed by the one recursive call; any other line is tokenized and
     * handed to a built-in or to an external program. The verdict is Dispatch's.
     */
    method ExecuteCommand(command: string) returns (v: Verdict)
      requires Valid()
      ensures v == Dispatch(command)
      decreases if IsReplayCommand(command) then 1 else 0
    {
      if |command| == 0 {
        return Ignored;
      }
      if command[0] == '!' {
        var lookup := ResolveReplay(command);
        if lookup.Settled? {
          return lookup.verdict;
        }
        var target := lookup.target;
        var outcome := ExecuteCommand(target);
        return Replay(target, outcome);
      }
      v := ExecutePlain(command);
    }

    /**
     * The `!` branch of execute_command up to the recursive call: a bare `!`
     * is the usage message, `!!` takes the newest entry (none: no previous
     * command), `!n` reads n with the digit loop (0: invalid number) and looks
     * it up (absent: not found).
     */
    method ResolveReplay(command: string) returns (lookup: Lookup)
      requires Valid() && IsReplayCommand(command)
      ensures lookup.Settled? ==> lookup.verdict == Dispatch(command)
      ensures lookup.Found? ==>
        Recordable(lookup.target) && Dispatch(command) == Replay(lookup.target, Dispatch(lookup.target))
    {
      if |command| == 1 {
        return Settled(Usage);
      }
      var target: Option<string>;
      if command[1] == '!' {
        if currentSize > 0 {
          var lastIndex := (historyStart + currentSize - 1) % HISTORY_SIZE;
          LiveSlot(currentSize - 1);
          target := history[lastIndex];
          assert target == Target(command);
        } else {
          return Settled(NoPrevious);
        }
      } else {
        var cmdNum := ParseCommandNumber(command);
        if cmdNum == 0 {
          return Settled(InvalidNumber);
        }
        target := GetHistoryCommand(cmdNum);
        assert target == Target(command);
      }
      DispatchResolved(command);
      if target.Some? {
        return Found(target.value);
      } else {
        return Settled(NotFound);
      }
    }

    /** A replay command that passes the usage, `!!` and number checks is decided by its target. */
    lemma DispatchResolved(command: string)
      requires Valid() && |command| > 1 && command[0] == '!'
      requires command[1] == '!' ==> currentSize > 0
      requires command[1] != '!' ==> CommandNumber(command) != 0
      ensures Dispatch(command) == match Target(command)
        case None => NotFound
        case Some(t) => Replay(t, Dispatch(t))
    {
    }

    /**
     * print_history, as the lines it prints: the header, then the placeholder
     * or one line per live entry, oldest first, numbered from
     * count - size + 1 with the digits IntToString builds.
     */
    method PrintHistory() returns (lines: seq<string>)
      requires Valid() && historyCount <= INT_MAX
      ensures lines == Listing(Live(), historyCount)
    {
      ghost var live := Live();
      Bounds();
      assert |live| == currentSize && Holds(history[..], historyStart, live);
      lines := [HEADER];
      if currentSize == 0 {
        lines := lines + [PLACEHOLDER];
        return;
      }
      var first := historyCount - currentSize + 1;
      var entries := ListEntries(history, historyStart, currentSize, first, live);
      lines := lines + entries;
    }

    /** The counters stay in range: size <= HISTORY_SIZE, start < HISTORY_SIZE, size <= count, and size is 0 only before the first record. */
    lemma Bounds()
      requires Valid()
      ensures currentSize <= HISTORY_SIZE && historyStart < HISTORY_SIZE && currentSize <= historyCount
      ensures currentSize == 0 <==> historyCount == 0
    {
    }

    /** Every occupied slot holds a non-empty command that does not start with `!`. */
    lemma StoredEntries(k: nat)
      requires Valid() && k < HISTORY_SIZE && history[k].Some?
      ensures history[k].value != [] && history[k].value[0] != '!'
    {
      var i := Offset(k, historyStart, HISTORY_SIZE);
      assert i < currentSize;
      assert (historyStart + i) % HISTORY_SIZE == k by {
        Wrap(historyStart, i, HISTORY_SIZE);
      }
      LiveSlot(i);
    }

    /** Bounded replay: a replayed command is never itself a replay, so execute_command recurses at most once. */
    lemma ReplayDepthAtMostOne(command: string)
      requires Valid()
      ensures ReplayDepth(Dispatch(command)) <= 1
    {
    }

    /** `!` alone is answered with the usage message. */
    lemma DispatchUsage()
      requires Valid()
      ensures Dispatch("!") == Usage
    {
    }

    /** `!!` replays the last recorded command, or reports that there is none. */
    lemma DispatchLast(command: string)
      requires Valid() && |command| > 1 && command[0] == '!' && command[1] == '!'
      ensures historyCount == 0 ==> Dispatch(command) == NoPrevious
      ensures historyCount > 0 ==>
        Dispatch(command) == Replay(recorded[historyCount - 1], Dispatch(recorded[historyCount - 1]))
    {
      Bounds();
      if historyCount > 0 {
        assert Target(command) == Some(recorded[historyCount - 1]);
      }
    }

    /**
     * `!n` is an invalid number for n = 0, replays the n-th recorded command
     * when it is among the last HISTORY_SIZE of them, and is not found otherwise;
     * n is the value of the digits right after the `!`.
     */
    lemma DispatchNumbered(command: string)
      requires Valid() && |command| > 1 && command[0] == '!' && command[1] != '!'
      ensures var n := CommandNumber(command);
        if n == 0 then Dispatch(command) == InvalidNumber
        else if historyCount - HISTORY_SIZE < n <= historyCount then
          Dispatch(command) == Replay(recorded[n - 1], Dispatch(recorded[n - 1]))
        else Dispatch(command) == NotFound
    {
      var n := CommandNumber(command);
      if n != 0 {
        assert Target(command) == GetHistoryCommand(n);
      }
    }

    /**
     * A command not starting with `!` is ignored when it has no tokens, and
     * otherwise goes to a built-in exactly when its first token is one of the
     * six names, with the tokens parse_command keeps as its arguments.
     */
    lemma DispatchPlain(command: string)
      requires Valid() && NUL !in command && command != [] && command[0] != '!'
      ensures var args := Arguments(command);
        Dispatch(command) ==
          if args == [] then Ignored
          else if args[0] in BUILTINS then Builtin(args)
          else External(args)
    {
      TokensAvoid(command, NUL);
      var args := Arguments(command);
      if args != [] {
        IsBuiltinIff(args[0]);
      }
    }

    /** The number print_history shows next to live entry i, typed after `!`, replays that entry. */
    lemma ListedNumberReplays(i: nat)
      requires Valid() && i < currentSize
      ensures var t := Live()[i];
        Dispatch("!" + Decimal(historyCount - currentSize + i + 1)) == Replay(t, Dispatch(t))
    {
      var n := historyCount - currentSize + i + 1;
      var command := "!" + Decimal(n);
      Bounds();
      LiveSlot(i);
      assert historyCount - HISTORY_SIZE < n <= historyCount && Live()[i] == recorded[n - 1];
      CommandNumberOfDecimal(n);
      assert command[1] == Decimal(n)[0] && IsDigit(command[1]);
      DispatchNumbered(command);
    }

    /** Once HISTORY_SIZE + 1 commands are recorded, number 1 is gone and numbers 2..HISTORY_SIZE + 1 find them in order. */
    lemma Eviction()
      requires Valid() && historyCount == HISTORY_SIZE + 1
      ensures GetHistoryCommand(1) == None
      ensures forall n :: 2 <= n <= HISTORY_SIZE + 1 ==> GetHistoryCommand(n) == Some(recorded[n - 1])
    {
    }
  }
}
