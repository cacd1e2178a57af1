# Mini-shell core, modelled in Dafny

Mini-shell is a small interactive Unix shell written in C (`Mini-shell/main.c`). This project models the part of it that does not depend on the operating system, and proves what that part promises:

- **History ring buffer.** The `Shell` record holds ten slots plus `history_start`, `current_size` and `history_count`. The model covers `init_shell`, `add_to_history` with its recording filter and eviction, `get_history_command`, and `print_history`, including its hand-written integer-to-decimal conversion and in-place reversal.
  - `Shell.Shell` is a class over an `array<Option<string>>`. A ghost sequence `recorded` holds every command ever accepted.
  - `Valid()` ties the fields to it: the array holds the last `min(10, |recorded|)` commands, oldest first from `history_start`, and every other slot is empty.
  - The module `HistoryRing` states that invariant on plain sequences.
- **Replay and dispatch.** This is the classification in `execute_command`: a bare `!`, `!!`, `!n` with its digit loop, an invalid number, not found, and built-in versus external through `is_builtin_command`. It is modelled as a `Verdict`, not as running processes.
  - `Shell.Shell.Dispatch` is the specification.
  - `Shell.Shell.ExecuteCommand` follows the C control flow, including the one recursive call.
- **Tokenizer.** `parse_command` splits on runs of spaces and tabs and keeps at most 63 tokens. `Tokenizer.ParseCommand` is the scan with its `in_token` flag. `Tokenizer.Tokens` and `Tokenizer.Arguments` give the maximal runs it must produce.
- **Line cleanup.**
  - `trim_whitespace` works in place on a NUL-terminated char array. It trims spaces, tabs, newlines and carriage returns from the end, then spaces and tabs from the front.
  - For `read_command`, the editing policy is a function of the input characters, and the loop is a method over the same input.
  - The string helpers `my_strlen`, `my_strcpy`, `my_strcmp` and `my_strdup` work over `array?<char>` (a possibly-NULL char array), with the C NULL conventions.
- **Session.** A short session in `shell_loop`'s order: each line is offered to the history, then executed (`Session.TypeWord` for lines the filter accepts, `Session.Skip` for the others). It shows `!!`, `!2`, `!99`, `!`, `!x` and `history` doing what the C code does.

Modules: `Wrappers` (Option), `CStrings`, `Digits`, `Tokenizer`, `LineInput`, `HistoryRing`, `Shell`, `Session`. Inside the model, a C string is the NUL-free `seq<char>` before its terminator. `CStrings.CString` connects arrays to that.

Where the behaviour described for the program and the code differ, the model follows the code:

- **End of input mid-line.** `read_command` returns -1 whenever `read` fails, including after some characters were already typed (`Mini-shell/main.c:401`). The model does the same: `EditLine` is `EndOfInput` whenever the input runs out before a newline or the cap.
- **Long lines.** A line longer than `max_len - 1` characters is not skipped. Reading stops at the cap and the remaining characters are left unread, so they begin the next line. `ReadLine` and `ReadCommand` return that unread rest.

## Model

| member | source | states |
|---|---|---|
| CStrings.CString | Mini-shell/main.c:66-74 | the C string a buffer holds is a NUL-free prefix of it, followed by a NUL whenever it is shorter than the buffer |
| CStrings.CStringOfTerminated | Mini-shell/main.c:84 | a buffer whose first NUL is at index n holds exactly its first n characters |
| CStrings.Compare | Mini-shell/main.c:87-98 | definition of my_strcmp on two C strings: skip equal characters, then the code difference of the first unequal pair, the end of a string counting as 0 |
| CStrings.Strlen | Mini-shell/main.c:66-74 | NULL gives 0; otherwise the result is the index of the first NUL, which is the length of the buffer's string |
| CStrings.Strcpy | Mini-shell/main.c:76-85 | either pointer NULL: dest unchanged; otherwise dest starts with src's string and a NUL, and everything after that is untouched |
| CStrings.Strcmp | Mini-shell/main.c:87-98 | two NULLs compare equal and NULL sorts first; otherwise the result is the code difference at the first mismatch, the terminator counting as 0 |
| CStrings.CompareZeroIff | Mini-shell/main.c:87-98 | for C strings, my_strcmp returns 0 exactly when the strings are equal |
| CStrings.CompareAntisymmetric | Mini-shell/main.c:87-98 | swapping the arguments of my_strcmp negates its result |
| CStrings.CompareStep | Mini-shell/main.c:91-95 | a common character is skipped without changing the comparison |
| CStrings.CompareStop | Mini-shell/main.c:92-97 | at the first difference or at either terminator, the two characters there decide |
| CStrings.Strdup | Mini-shell/main.c:100-113 | NULL in gives NULL out; otherwise a fresh buffer holding a copy of the string and its terminator |
| Digits.DigitValue | Mini-shell/main.c:540 | a digit character's value is below 10, and rendering that value back gives the character |
| Digits.Decimal | Mini-shell/main.c:467-485 | a rendered number is a non-empty digit string without a leading zero |
| Digits.Value | Mini-shell/main.c:539-542 | definition: the number a digit string denotes, accumulated left to right as `n * 10 + d`, as the `!n` loop does |
| Digits.ValueAppend | Mini-shell/main.c:540 | one more digit on the right multiplies the value by ten and adds the digit |
| Digits.LeadingDigits | Mini-shell/main.c:539-542 | the digits the `!n` loop consumes are the longest all-digit prefix, and the character after them is not a digit |
| Digits.ValueOfDecimal | Mini-shell/main.c:467-485 | reading a rendered number back gives the number |
| Digits.DecimalOfValue | Mini-shell/main.c:539-542 | a digit string without a leading zero is the rendering of its value |
| Digits.ValuePositive | Mini-shell/main.c:544-547 | a digit string that does not start with 0 has a positive value |
| Digits.DecimalLength | Mini-shell/main.c:464 | a value below 10^k renders in at most k digits |
| Digits.IntFitsTenDigits | Mini-shell/main.c:464 | every C int value renders in at most ten digits, so num_str[16] has room for the digits and the terminator |
| Digits.LeadingDigitsOfDigits | Mini-shell/main.c:539-542 | followed by a non-digit or the end, an all-digit string is exactly what the digit loop reads |
| Digits.Reversed | Mini-shell/main.c:480-484 | definition of what the swap loop must produce: the sequence read from its last element to its first |
| Digits.ReversedAt | Mini-shell/main.c:480-484 | position k of a reversed string holds the k-th character from the end |
| Digits.DigitStep | Mini-shell/main.c:473-476 | one pass of the digit loop writes the next digit from the end of the rendering, and temp / 10 holds the digits before it |
| Digits.ReversedOf | Mini-shell/main.c:480-484 | a string whose k-th character is the k-th from the end of t is t reversed |
| Digits.SwappedAll | Mini-shell/main.c:480-484 | once the first half of the positions has been swapped with its mirror image, the string is reversed |
| Digits.WriteDigitsBackwards | Mini-shell/main.c:468-477 | the conversion's first half writes the rendering of n least significant digit first ("0" for zero) and leaves the rest of the buffer alone |
| Digits.WriteDigits | Mini-shell/main.c:473-476 | for positive n, the while loop writes exactly the digits of n in reverse |
| Digits.ReversePrefix | Mini-shell/main.c:480-484 | the swap loop reverses the first len characters in place and touches nothing after them |
| Digits.IntToString | Mini-shell/main.c:464-485 | the integer-to-string conversion of print_history yields the decimal rendering of the number |
| Tokenizer.Tokens | Mini-shell/main.c:176-200 | definition of what parse_command splits a line into: blanks are skipped and each maximal run of non-blank characters is one token, in order |
| Tokenizer.Arguments | Mini-shell/main.c:180-200 | definition: the tokens parse_command keeps, the first MAX_ARGS - 1 = 63 of them |
| Tokenizer.Run | Mini-shell/main.c:180-185 | a token is the longest non-blank run starting at its first character, ended by a blank or the end |
| Tokenizer.TokensSkipBlanks | Mini-shell/main.c:186-193 | blanks before anything contribute no token |
| Tokenizer.RunOf | Mini-shell/main.c:180-185 | a non-blank word followed by a blank or the end is read as that word |
| Tokenizer.TokensOfRun | Mini-shell/main.c:180-200 | such a word is exactly one token, followed by the tokens of the rest |
| Tokenizer.TokensWellFormed | Mini-shell/main.c:180-200 | every token is non-empty and holds no space or tab |
| Tokenizer.TokensAvoid | Mini-shell/main.c:180-200 | a character absent from the line is absent from every token |
| Tokenizer.TokensCoverNonBlanks | Mini-shell/main.c:176-200 | joined back together, the tokens are exactly the line's non-blank characters, in order |
| Tokenizer.TokensOfTwoWords | Mini-shell/main.c:176-200 | blanks, a word, at least one blank, a word and blanks give exactly the two words |
| Tokenizer.TokensExamples | Mini-shell/main.c:176-200 | the empty line gives no tokens and "  ls   -la " gives ["ls", "-la"] |
| Tokenizer.SkipBlankAt | Mini-shell/main.c:186-193 | a blank at the scan position adds no token |
| Tokenizer.CloseTokenAt | Mini-shell/main.c:187-191 | a blank (or the end) closing a non-blank stretch makes that stretch the next token |
| Tokenizer.SkipStep | Mini-shell/main.c:186-193 | outside a token, the scan skips a blank without changing the tokens still due |
| Tokenizer.CloseStep | Mini-shell/main.c:187-192 | inside a token, a blank closes it and appends it to the arguments collected so far |
| Tokenizer.ParseCommand | Mini-shell/main.c:154-203 | parse_command returns the first 63 maximal non-blank runs of the line in order, and never more than 63 |
| Tokenizer.FinishScan | Mini-shell/main.c:196-200 | where the scan stops, closing the pending token when there is room gives exactly the arguments |
| LineInput.Trim | Mini-shell/main.c:119-143 | definition of trim_whitespace: the end is trimmed first, then the front |
| LineInput.TrimRight | Mini-shell/main.c:123-128 | the end trim removes a suffix of spaces, tabs, newlines and carriage returns and leaves none last |
| LineInput.TrimLeft | Mini-shell/main.c:130-134 | the front trim removes a prefix of spaces and tabs and leaves none first |
| LineInput.TrimShape | Mini-shell/main.c:119-143 | trim_whitespace leaves a contiguous piece of the line; only spaces and tabs precede it, and only spaces, tabs, newlines and carriage returns follow it |
| LineInput.TrimIdempotent | Mini-shell/main.c:119-143 | trimming a trimmed line changes nothing |
| LineInput.TrimRightBeforeBlanks | Mini-shell/main.c:124-127 | where the backward loop stops, the prefix left is the end-trimmed line |
| LineInput.TrimLeftAfterBlanks | Mini-shell/main.c:131-133 | where the leading count stops, the suffix left is the front-trimmed line |
| LineInput.TrimTrailing | Mini-shell/main.c:122-128 | the backward loop overwrites the trailing blanks with NUL, keeps the string before them and touches nothing past the old terminator |
| LineInput.ShiftLeft | Mini-shell/main.c:135-142 | the shift copies the string after its leading blanks to the front and terminates it |
| LineInput.CountLeading | Mini-shell/main.c:130-134 | the count is the number of leading spaces and tabs: all of those before it, and not one at it |
| LineInput.TrimLeading | Mini-shell/main.c:129-142 | after the count and the shift, the buffer's string is the front-trimmed line |
| LineInput.TrimWhitespace | Mini-shell/main.c:119-143 | in place, the buffer's string becomes its trimmed form; NULL is left alone, and nothing past the old terminator changes |
| LineInput.EditFrom | Mini-shell/main.c:398-417 | definition of read_command's editing policy: stop at the cap or at a newline (consumed, not kept); backspace and DEL drop the last kept character if any; characters 32 to 126 are kept; others are ignored; running out of input first is end of input |
| LineInput.EditLine | Mini-shell/main.c:395-417 | definition: one line read with an empty buffer and room for cap characters |
| LineInput.EditFromBounds | Mini-shell/main.c:398-417 | a line read never exceeds the cap, holds only printable characters, and leaves a suffix of the input unread |
| LineInput.EditLineBounds | Mini-shell/main.c:398-417 | a line read from an empty buffer obeys the cap, is printable and holds no NUL |
| LineInput.EraseCancelsTyping | Mini-shell/main.c:405-416 | typing a printable character and then backspace or DEL leaves no trace |
| LineInput.TypedLineReadBack | Mini-shell/main.c:398-417 | printable text shorter than the cap, ended by a newline, is read back unchanged and the newline is consumed |
| LineInput.ReadLine | Mini-shell/main.c:395-417 | the reading loop puts exactly the edited line at the front of the buffer and returns its length and the unread input, or -1 when the input ends first |
| LineInput.ReadCommand | Mini-shell/main.c:392-424 | max_len <= 0 gives -1; end of input gives -1; otherwise the buffer holds the trimmed line and the trimmed length, at most max_len - 1, is returned |
| LineInput.TerminateAndTrim | Mini-shell/main.c:419-423 | terminating, trimming and measuring leaves the trimmed line in the buffer and returns its length |
| HistoryRing.Slot | Mini-shell/main.c:462 | the ring position of live entry i lies inside the ring |
| HistoryRing.Offset | Mini-shell/main.c:462 | every slot is the ring position of exactly one logical position, the inverse of Slot |
| HistoryRing.Wrap | Mini-shell/main.c:462 | the `(start + i) % HISTORY_SIZE` index computation is Slot |
| HistoryRing.Holds | Mini-shell/main.c:461-463 | definition of the ring invariant: the slot of live position i holds entry i, oldest first from start, and every other slot is empty |
| HistoryRing.Keeps | Mini-shell/main.c:436-448 | definition: the ring holds the last min(HISTORY_SIZE, count) recorded commands and size counts them |
| HistoryRing.EmptyHolds | Mini-shell/main.c:357-363 | a ring of all-empty slots with start 0 holds no entries |
| HistoryRing.Next | Mini-shell/main.c:436 | the next slot is inside the ring |
| HistoryRing.Advance | Mini-shell/main.c:442 | the advanced start is inside the ring |
| HistoryRing.Insert | Mini-shell/main.c:436-447 | writing the next slot appends the entry below capacity, and at capacity overwrites the oldest and advances start |
| HistoryRing.Window | Mini-shell/main.c:496-507 | the ring keeps min(HISTORY_SIZE, count) entries |
| HistoryRing.WindowGrows | Mini-shell/main.c:436-448 | recording one more command moves the kept window exactly as an insertion does: it grows, or drops its oldest |
| HistoryRing.KeptAt | Mini-shell/main.c:505-506 | live position i holds recorded command count - size + i |
| HistoryRing.Record | Mini-shell/main.c:436-448 | an accepted insert keeps the ring agreeing with the recorded commands, and the newest live entry is the new command |
| Shell.Plain | Mini-shell/main.c:563-575 | definition of the non-replay half of execute_command: no tokens is ignored, otherwise is_builtin_command on the first token picks a built-in or an external program, with the tokens as arguments |
| Shell.ExecutePlain | Mini-shell/main.c:563-575 | parse_command then is_builtin_command compute Plain's verdict; for a C string the line goes to a built-in exactly when its first token is one of the six names |
| Shell.Recordable | Mini-shell/main.c:431-434 | definition of add_to_history's filter: a command is recorded when it is non-empty, does not start with `!`, and my_strcmp does not find it equal to "history" |
| Shell.RecordableIff | Mini-shell/main.c:430-434 | add_to_history records a command exactly when it is non-empty, does not start with `!` and is not "history" |
| Shell.IsBuiltinCommand | Mini-shell/main.c:274-283 | definition of is_builtin_command: the six my_strcmp tests against exit, history, clear, cd, pwd and help |
| Shell.IsBuiltinIff | Mini-shell/main.c:274-283 | for a C string, is_builtin_command is true exactly for exit, history, clear, cd, pwd and help |
| Shell.ReplayDepth | Mini-shell/main.c:552-556 | definition: how many replays are nested in a verdict, the depth of execute_command's recursion |
| Shell.CommandNumber | Mini-shell/main.c:537-542 | definition: the number `!n` names is the value of the longest digit run right after the `!`, 0 when there is none |
| Shell.ParseCommandNumber | Mini-shell/main.c:537-542 | the digit loop computes the value of the digits right after the `!` (0 when there are none) |
| Shell.CommandNumberOfDecimal | Mini-shell/main.c:537-542 | writing a number after `!` names that number |
| Shell.ListingLine | Mini-shell/main.c:487-491 | definition of one printed line: two spaces, the display number in decimal, a colon and a space, the entry, a newline |
| Shell.ListingLines | Mini-shell/main.c:461-493 | the listing has one line per live entry |
| Shell.ListingLinesAt | Mini-shell/main.c:465-491 | line i shows display number first + i, then entry i |
| Shell.ListingStep | Mini-shell/main.c:461-493 | one more live entry adds exactly its line at the end |
| Shell.Listing | Mini-shell/main.c:454-493 | definition of what print_history prints: the header, then the placeholder for an empty window, or the window's lines numbered from count - size + 1 |
| Shell.ListEntries | Mini-shell/main.c:461-493 | the loop over slots (start + i) % HISTORY_SIZE prints the numbered lines of the live entries, oldest first |
| Shell.Shell.constructor | Mini-shell/main.c:347-368 | init_shell: every slot is empty, all three counters are zero, and the invariant holds with nothing recorded |
| Shell.Shell.LiveSlot | Mini-shell/main.c:505-506 | slot (start + i) % HISTORY_SIZE holds recorded command count - size + i, and that command is recordable |
| Shell.Shell.AddToHistory | Mini-shell/main.c:430-449 | a filtered command leaves all counters and slots unchanged; any other is stored as Stored says, after which lookup(count) and the `!!` slot give it; the invariant is kept |
| Shell.Shell.Store | Mini-shell/main.c:436-448 | the command goes to slot (start + size) % HISTORY_SIZE, no other slot changes, count rises by one, and size grows (or, when full, start advances) |
| Shell.Shell.Newest | Mini-shell/main.c:527-529 | the `!!` slot (start + size - 1) % HISTORY_SIZE and lookup(count) both give the latest recorded command |
| Shell.Shell.GetHistoryCommand | Mini-shell/main.c:496-507 | number n is found exactly when 1 <= n <= count and n is among the last HISTORY_SIZE numbers, and then it is the n-th command recorded |
| Shell.Shell.Target | Mini-shell/main.c:523-550 | `!!` names the latest recorded command (if any), and `!n` names what get_history_command gives for n |
| Shell.Shell.Dispatch | Mini-shell/main.c:513-578 | definition of execute_command's outcome: empty line ignored; bare `!` usage; `!!` with an empty history no previous command; `!n` with value 0 invalid number; otherwise the target is replayed by the same rules, or not found; any other line as Plain |
| Shell.Shell.ExecuteCommand | Mini-shell/main.c:513-578 | following execute_command's control flow, including its one recursive call, reaches the verdict Dispatch specifies |
| Shell.Shell.ResolveReplay | Mini-shell/main.c:517-560 | the `!` branch ends with Dispatch's verdict, or names a recordable target whose execution is the replay |
| Shell.Shell.DispatchResolved | Mini-shell/main.c:552-559 | a replay that passes the usage, `!!` and number checks replays its target when there is one, and otherwise is not found |
| Shell.Shell.PrintHistory | Mini-shell/main.c:451-494 | print_history prints the header, then the placeholder when empty, or one line per live entry, oldest first, numbered from count - size + 1 |
| Shell.Shell.Bounds | Mini-shell/main.c:436-448 | size <= HISTORY_SIZE, start < HISTORY_SIZE and size <= count always hold, and size is 0 exactly when nothing was recorded |
| Shell.Shell.StoredEntries | Mini-shell/main.c:434 | every occupied slot holds a non-empty command that does not start with `!` |
| Shell.Shell.ReplayDepthAtMostOne | Mini-shell/main.c:552-556 | the recursive call in execute_command is never more than one level deep |
| Shell.Shell.DispatchUsage | Mini-shell/main.c:518-521 | a bare `!` is answered with the usage message |
| Shell.Shell.DispatchLast | Mini-shell/main.c:525-533 | `!!` replays the latest recorded command, or reports no previous command when nothing was recorded |
| Shell.Shell.DispatchNumbered | Mini-shell/main.c:534-559 | `!n` is an invalid number when n is 0, replays the n-th command when it is still kept, and is not found otherwise |
| Shell.Shell.DispatchPlain | Mini-shell/main.c:563-575 | a non-replay line is ignored without tokens, otherwise goes to a built-in exactly when its first token is one of the six names |
| Shell.Shell.ListedNumberReplays | Mini-shell/main.c:465 | the number print_history shows next to an entry, typed after `!`, replays that entry |
| Shell.Shell.Eviction | Mini-shell/main.c:496-507 | after HISTORY_SIZE + 1 commands, number 1 is gone and numbers 2 to HISTORY_SIZE + 1 give those commands in order |
| Session.OneWord | Mini-shell/main.c:274-283 | a single word runs as a built-in exactly when it is one of the six names |
| Session.LastReplays | Mini-shell/main.c:525-529 | after ls, pwd, date, `!!` replays date as an external program |
| Session.DateIsExternal | Mini-shell/main.c:571-575 | date is handed to an external program |
| Session.PwdIsBuiltin | Mini-shell/main.c:571-572 | pwd is a built-in |
| Session.HistoryIsBuiltin | Mini-shell/main.c:571-572 | history is a built-in |
| Session.SecondReplays | Mini-shell/main.c:534-556 | after ls, pwd, date, `!2` replays pwd as a built-in |
| Session.NinetyNineMissing | Mini-shell/main.c:549-558 | after ls, pwd, date, `!99` is not found |
| Session.LetterInvalid | Mini-shell/main.c:537-547 | `!x` is an invalid number, whatever the history |
| Session.Misses | Mini-shell/main.c:517-558 | after ls, pwd, date, `!99` is not found, `!x` is an invalid number and `!` alone is the usage message |
| Session.TypeWord | Mini-shell/main.c:617-618 | one shell_loop turn on an accepted one-word line: it is appended to the recorded commands, then runs as a built-in exactly when it is one of the six names |
| Session.Skip | Mini-shell/main.c:617-618 | one shell_loop turn on a filtered line: the recorded commands and the count stay, and the verdict is Dispatch's on the history as it stands |
| Session.TypeCommands | Mini-shell/main.c:617-618 | ls, pwd and date entered in a fresh shell are recorded in that order; ls and date run externally, pwd as a built-in |
| Session.ReplayHits | Mini-shell/main.c:617-618 | entered after ls, pwd, date (offered to the history, then executed), `!!` replays date and `!2` replays pwd |
| Session.ReplayMisses | Mini-shell/main.c:617-618 | entered after ls, pwd, date, `!99`, `!` and `!x` give not found, usage and invalid number |
| Session.HistoryScenario | Mini-shell/main.c:617-618 | `history` runs the built-in without being recorded, and the listing numbers ls, pwd, date from 1 to 3 |
| Session.TypedListing | Mini-shell/main.c:461-491 | the listing of ls, pwd, date is the header and "  1: ls", "  2: pwd", "  3: date" |

## Left out

- execute_external_command (fork, execvp, waitpid, exit-status messages) is not part of this model: a command handed to an external program ends in the verdict `External(args)`.
- The bodies of the built-ins (cd, pwd, exit, clear, help, and history's own call to print_history) are not modelled as effects: dispatch to one ends in the verdict `Builtin(args)`. print_history is modelled separately as `Shell.Shell.PrintHistory`.
- The signal handlers and the `global_shell` pointer are left out: they are asynchronous OS notifications.
- Raw `read`/`write`, the prompt, the echo of typed characters, the welcome and help texts and the byte counts of messages are left out. Input is a character sequence. print_history's output is the sequence of lines it writes. execute_command's messages are the Verdict constructors.
- malloc failure paths are left out: allocation is taken to succeed, so my_strdup returns NULL only for a NULL argument. cleanup_shell and free_command only release memory and are not modelled.
- shell_loop is not modelled as a loop, since it never terminates and reads from the terminal. The Session module plays its read, record and execute order on fixed lines.
- NULL arguments are not modelled for add_to_history, get_history_command, print_history, execute_command, parse_command and read_command, since shell_loop always passes a real shell, line and buffer. Their Dafny counterparts take non-null values. The NULL cases of the string helpers and of trim_whitespace are modelled.
- HISTORY_SIZE is fixed at 10, as in the C `#define`.
- Shell.ParseCommandNumber: uses unbounded integers, so the C `int` overflow of `cmd_num` on very long digit strings is not modelled.
- Digits.IntToString: requires the number to be at most INT_MAX (a C `int` holds it); the cases num_str[16] would overflow cannot occur in C.
- Shell.Shell.AddToHistory: history_count, history_start and current_size are C `int`s, but the model counts with unbounded naturals. The wrap-around of `history_count++` after INT_MAX accepted commands is not modelled, and neither is what that would do to display numbers and lookups.
- Shell.Shell.Store: the same unbounded history_count; the model's count grows without limit.
- Shell.Shell.PrintHistory: requires history_count <= INT_MAX, for the same reason: history_count is a C `int`.
- Tokenizer.ParseCommand: returns the tokens as a sequence, so the NULL stored at `args[argc]` has no counterpart; the sequence's length is argc.
- CStrings.Strcmp: characters are compared by their non-negative code points; the sign a signed C `char` gives bytes above 127 is not modelled (the shell only ever stores characters 32 to 126).
- LineInput.TrimWhitespace: states the new string and that nothing after the old terminator changes; what is left between the new and the old terminator is not specified.
- LineInput.ReadCommand: on end of input, what the buffer holds is not specified; only the -1 result and the consumed input are.
