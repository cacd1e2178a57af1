/**
 * Line cleanup: the editing policy of read_command and trim_whitespace, which
 * read_command applies to every line before handing it to the shell.
 */
module LineInput {
  import opened CStrings

  /** The characters trim_whitespace strips from the end of a line. */
  predicate IsTrailingSpace(c: char) {
    c == ' ' || c == '\t' || c == '\n' || c == '\r'
  }

  /** The characters trim_whitespace strips from the front of a line. */
  predicate IsLeadingSpace(c: char) {
    c == ' ' || c == '\t'
  }

  /** s without its trailing spaces, tabs, newlines and carriage returns. */
  function TrimRight(s: string): (r: string)
    ensures |r| <= |s| && r == s[..|r|]
    ensures forall k :: |r| <= k < |s| ==> IsTrailingSpace(s[k])
    ensures r == [] || !IsTrailingSpace(r[|r| - 1])
  {
    if s != [] && IsTrailingSpace(s[|s| - 1]) then TrimRight(s[..|s| - 1]) else s
  }

  /** s without its leading spaces and tabs. */
  function TrimLeft(s: string): (r: string)
    ensures |r| <= |s| && r == s[|s| - |r|..]
    ensures forall k :: 0 <= k < |s| - |r| ==> IsLeadingSpace(s[k])
    ensures r == [] || !IsLeadingSpace(r[0])
  {
    if s != [] && IsLeadingSpace(s[0]) then TrimLeft(s[1..]) else s
  }

  /** trim_whitespace: the end is trimmed first, then the front. */
  function Trim(s: string): string {
    TrimLeft(TrimRight(s))
  }

  /**
   * The trimmed line is the contiguous piece s[i..j]: everything before it is
   * a space or tab, everything after it a space, tab, newline or carriage
   * return, and it neither starts with a space or tab nor ends with any of the four.
   */
  lemma TrimShape(s: string) returns (i: nat, j: nat)
    ensures i <= j <= |s| && Trim(s) == s[i..j]
    ensures forall k :: 0 <= k < i ==> IsLeadingSpace(s[k])
    ensures forall k :: j <= k < |s| ==> IsTrailingSpace(s[k])
    ensures Trim(s) != [] ==> !IsLeadingSpace(Trim(s)[0]) && !IsTrailingSpace(Trim(s)[|Trim(s)| - 1])
  {
    var r := TrimRight(s);
    var t := TrimLeft(r);
    j := |r|;
    i := |r| - |t|;
    assert r == s[..j] && t == r[i..];
    assert s[i..j] == r[i..];
    forall k | 0 <= k < i
      ensures IsLeadingSpace(s[k])
    {
      assert s[k] == r[k];
    }
  }

  /** Trimming a trimmed line changes nothing. */
  lemma TrimIdempotent(s: string)
    ensures Trim(Trim(s)) == Trim(s)
  {
    var t := Trim(s);
    var r := TrimRight(s);
    if t != [] {
      assert t[|t| - 1] == r[|r| - 1];
    }
    assert TrimRight(t) == t;
  }

  /** Before a suffix of trailing spaces that starts after a non-blank (or at the start), what is left is TrimRight. */
  lemma {:induction false} TrimRightBeforeBlanks(s: string, n: nat)
    requires n <= |s| && (n == 0 || !IsTrailingSpace(s[n - 1]))
    requires forall k :: n <= k < |s| ==> IsTrailingSpace(s[k])
    ensures TrimRight(s) == s[..n]
  {
    if n < |s| {
      var p := s[..|s| - 1];
      TrimRightBeforeBlanks(p, n);
      assert p[..n] == s[..n];
    }
  }

  /** Past a prefix of spaces and tabs that ends at a non-blank (or the end), what is left is TrimLeft. */
  lemma {:induction false} TrimLeftAfterBlanks(r: string, start: nat)
    requires start <= |r| && (start == |r| || !IsLeadingSpace(r[start]))
    requires forall k :: 0 <= k < start ==> IsLeadingSpace(r[k])
    ensures TrimLeft(r) == r[start..]
  {
    if start > 0 {
      TrimLeftAfterBlanks(r[1..], start - 1);
      assert r[1..][start - 1..] == r[start..];
    }
  }

  /**
   * The first half of trim_whitespace: trailing spaces, tabs, newlines and
   * carriage returns of the len-character string in str are overwritten with
   * NUL from the end; the new length is returned.
   */
  method TrimTrailing(str: array<char>, len: nat) returns (newLen: nat)
    requires len < str.Length && str[len] == NUL
    modifies str
    ensures newLen <= len && str[..newLen] == TrimRight(old(str[..len]))
    ensures forall k :: newLen <= k <= len ==> str[k] == NUL
    ensures str[..newLen] == old(str[..newLen])
    ensures forall k :: len < k < str.Length ==> str[k] == old(str[k])
  {
    ghost var s := str[..len];
    newLen := len;
    while newLen > 0 && IsTrailingSpace(str[newLen - 1])
      invariant newLen <= len
      invariant forall k :: 0 <= k < newLen ==> str[k] == s[k]
      invariant forall k :: newLen <= k < len ==> IsTrailingSpace(s[k])
      invariant forall k :: newLen <= k <= len ==> str[k] == NUL
      invariant forall k :: len < k < str.Length ==> str[k] == old(str[k])
    {
      newLen := newLen - 1;
      str[newLen] := NUL;
    }
    TrimRightBeforeBlanks(s, newLen);
    assert str[..newLen] == s[..newLen];
  }

  /**
   * The second half: the string str[start..len] is copied to the front of str,
   * one character at a time from the left, and terminated.
   */
  method ShiftLeft(str: array<char>, start: nat, len: nat)
    requires 0 < start <= len < str.Length && str[len] == NUL && NUL !in str[..len]
    modifies str
    ensures str[..len - start] == old(str[start..len]) && str[len - start] == NUL
    ensures forall k :: len - start < k < str.Length ==> str[k] == old(str[k])
  {
    var i := 0;
    while str[start + i] != NUL
      invariant 0 <= i <= len - start
      invariant str[..i] == old(str[start..start + i])
      invariant forall k :: i <= k < str.Length ==> str[k] == old(str[k])
      decreases len - start - i
    {
      assert str[start + i] == old(str[start + i]);
      str[i] := str[start + i];
      i := i + 1;
    }
    str[i] := NUL;
  }

  /** trim_whitespace's count of the spaces and tabs that begin the len-character string in str. */
  method CountLeading(str: array<char>, len: nat) returns (start: nat)
    requires len < str.Length && str[len] == NUL
    ensures start <= len && (start == len || !IsLeadingSpace(str[start]))
    ensures forall k :: 0 <= k < start ==> IsLeadingSpace(str[k])
  {
    start := 0;
    while str[start] == ' ' || str[start] == '\t'
      invariant 0 <= start <= len
      invariant forall k :: 0 <= k < start ==> IsLeadingSpace(str[k])
      decreases len - start
    {
      start := start + 1;
    }
  }

  /**
   * The second half of trim_whitespace: the leading spaces and tabs of the
   * len-character string in str are counted, and if there are any the rest
   * of the string is shifted over them.
   */
  method TrimLeading(str: array<char>, len: nat)
    requires len < str.Length && str[len] == NUL && NUL !in str[..len]
    modifies str
    ensures CString(str[..]) == TrimLeft(old(str[..len]))
    ensures forall k :: len < k < str.Length ==> str[k] == old(str[k])
  {
    ghost var r := str[..len];
    var start := CountLeading(str, len);
    TrimLeftAfterBlanks(r, start);
    if start > 0 {
      ShiftLeft(str, start, len);
      assert str[..len - start] == r[start..];
      CStringOfTerminated(str[..], len - start);
    } else {
      assert str[..len] == r;
      CStringOfTerminated(str[..], len);
    }
  }

  /**
   * trim_whitespace on a NUL-terminated buffer, in place: trailing characters
   * are overwritten with NUL from the end, then the remaining string is shifted
   * left over its leading blanks. A NULL pointer is left alone, and nothing
   * after the old terminator is touched.
   */
  method TrimWhitespace(str: array?<char>)
    requires str != null ==> NUL in str[..]
    modifies str
    ensures str != null ==> NUL in str[..] && CString(str[..]) == Trim(old(CString(str[..])))
    ensures str != null ==>
      forall k :: old(|CString(str[..])|) < k < str.Length ==> str[k] == old(str[k])
  {
    if str == null {
      return;
    }
    var len := Strlen(str);
    ghost var s := str[..len];
    var newLen := TrimTrailing(str, len);
    assert str[..newLen] == TrimRight(s);
    assert NUL !in str[..newLen];
    TrimLeading(str, newLen);
  }

  /** The outcome of reading one line: its kept characters and the unread input, or end of input. */
  datatype Edit = Line(text: string, rest: seq<char>) | EndOfInput

  predicate IsPrintable(c: char) {
    32 <= c as int <= 126
  }

  predicate AllPrintable(s: string) {
    forall k :: 0 <= k < |s| ==> IsPrintable(s[k])
  }

  predicate IsErase(c: char) {
    c as int == 8 || c as int == 127
  }

  /**
   * read_command's editing policy, from the characters already kept: stop once
   * cap characters are kept, or at a newline (which is consumed and dropped);
   * backspace and DEL remove the last kept character if there is one; other
   * printable characters are kept; everything else is ignored. Running out of
   * input first is end of input.
   */
  function EditFrom(kept: string, input: seq<char>, cap: nat): Edit
    decreases |input|
  {
    if |kept| >= cap then Line(kept, input)
    else if input == [] then EndOfInput
    else
      var ch, rest := input[0], input[1..];
      if ch == '\n' then Line(kept, rest)
      else if IsErase(ch) then EditFrom(if kept == [] then [] else kept[..|kept| - 1], rest, cap)
      else if IsPrintable(ch) then EditFrom(kept + [ch], rest, cap)
      else EditFrom(kept, rest, cap)
  }

  /** One line read from input into a buffer with room for cap characters. */
  function EditLine(input: seq<char>, cap: nat): Edit {
    EditFrom([], input, cap)
  }

  /** A line never exceeds the cap, holds only printable characters, and leaves a suffix of the input unread. */
  lemma {:induction false} EditFromBounds(kept: string, input: seq<char>, cap: nat)
    requires |kept| <= cap && AllPrintable(kept)
    ensures EditFrom(kept, input, cap).Line? ==>
      var e := EditFrom(kept, input, cap);
      |e.text| <= cap && AllPrintable(e.text) &&
      |e.rest| <= |input| && e.rest == input[|input| - |e.rest|..]
    decreases |input|
  {
    if |kept| < cap && input != [] {
      var ch, rest := input[0], input[1..];
      if ch != '\n' {
        var kept' := if IsErase(ch) then (if kept == [] then [] else kept[..|kept| - 1])
          else if IsPrintable(ch) then kept + [ch] else kept;
        assert EditFrom(kept, input, cap) == EditFrom(kept', rest, cap);
        assert |kept'| <= cap && AllPrintable(kept');
        EditFromBounds(kept', rest, cap);
        var e := EditFrom(kept', rest, cap);
        if e.Line? {
          assert input[|input| - |e.rest|..] == rest[|rest| - |e.rest|..];
        }
      }
    }
  }

  lemma EditLineBounds(input: seq<char>, cap: nat)
    ensures EditLine(input, cap).Line? ==>
      |EditLine(input, cap).text| <= cap && AllPrintable(EditLine(input, cap).text) && NUL !in EditLine(input, cap).text
  {
    EditFromBounds([], input, cap);
    var e := EditLine(input, cap);
    if e.Line? {
      assert forall k :: 0 <= k < |e.text| ==> IsPrintable(e.text[k]);
    }
  }

  /** Typing a printable character and then erasing it leaves no trace, when the cap is not reached in between. */
  lemma EraseCancelsTyping(kept: string, c: char, erase: char, rest: seq<char>, cap: nat)
    requires IsPrintable(c) && IsErase(erase) && |kept| + 1 < cap
    ensures EditFrom(kept, [c, erase] + rest, cap) == EditFrom(kept, rest, cap)
  {
    var input := [c, erase] + rest;
    assert input[0] == c && input[1..] == [erase] + rest;
    assert ([erase] + rest)[0] == erase && ([erase] + rest)[1..] == rest;
    assert (kept + [c])[..|kept|] == kept;
  }

  /** A typed line of printable characters shorter than the cap, ended by a newline, is read back as it is. */
  lemma {:induction false} TypedLineReadBack(kept: string, w: string, rest: seq<char>, cap: nat)
    requires AllPrintable(w) && |kept| + |w| < cap
    ensures EditFrom(kept, w + ['\n'] + rest, cap) == Line(kept + w, rest)
    decreases |w|
  {
    if w == [] {
      assert w + ['\n'] + rest == ['\n'] + rest;
      assert kept + w == kept;
    } else {
      var input := w + ['\n'] + rest;
      assert input[0] == w[0] && input[1..] == w[1..] + ['\n'] + rest;
      TypedLineReadBack(kept + [w[0]], w[1..], rest, cap);
      assert kept + [w[0]] + w[1..] == kept + w;
    }
  }

  /**
   * The reading loop of read_command: one character at a time from input,
   * under the editing policy, into the front of buffer. Returns the number of
   * characters kept (-1 when the input ends first) and the input left unread.
   */
  method ReadLine(buffer: array<char>, cap: nat, input: seq<char>) returns (pos: int, rest: seq<char>)
    requires cap < buffer.Length
    modifies buffer
    ensures EditLine(input, cap).EndOfInput? ==> pos == -1 && rest == []
    ensures EditLine(input, cap).Line? ==>
      0 <= pos <= cap && buffer[..pos] == EditLine(input, cap).text && rest == EditLine(input, cap).rest
  {
    pos := 0;
    var k := 0;
    while pos < cap
      invariant 0 <= pos <= cap && k <= |input|
      invariant EditLine(input, cap) == EditFrom(buffer[..pos], input[k..], cap)
      decreases |input| - k
    {
      if k == |input| {
        return -1, [];
      }
      var ch := input[k];
      assert input[k..][1..] == input[k + 1..];
      k := k + 1;
      if ch == '\n' {
        break;
      }
      if IsErase(ch) {
        if pos > 0 {
          assert buffer[..pos][..pos - 1] == buffer[..pos - 1];
          pos := pos - 1;
        }
      } else if IsPrintable(ch) {
        ghost var before := buffer[..pos];
        buffer[pos] := ch;
        assert buffer[..pos + 1] == before + [ch];
        pos := pos + 1;
      }
    }
    rest := input[k..];
  }

  /**
   * read_command: a line is read into buffer, terminated and trimmed, and its
   * trimmed length is returned; -1 when max_len is not positive or the input
   * ends before the line does. Also returns the input left unread.
   */
  method ReadCommand(buffer: array<char>, maxLen: int, input: seq<char>) returns (n: int, rest: seq<char>)
    requires maxLen <= buffer.Length
    modifies buffer
    ensures maxLen <= 0 ==> n == -1 && rest == input && buffer[..] == old(buffer[..])
    ensures maxLen > 0 && EditLine(input, maxLen - 1).EndOfInput? ==> n == -1 && rest == []
    ensures maxLen > 0 && EditLine(input, maxLen - 1).Line? ==>
      var e := EditLine(input, maxLen - 1);
      rest == e.rest && n == |Trim(e.text)| && n <= maxLen - 1 &&
      NUL in buffer[..] && CString(buffer[..]) == Trim(e.text)
  {
    if maxLen <= 0 {
      return -1, input;
    }
    ghost var e := EditLine(input, maxLen - 1);
    var pos;
    pos, rest := ReadLine(buffer, maxLen - 1, input);
    if pos < 0 {
      return -1, rest;
    }
    EditLineBounds(input, maxLen - 1);
    n := TerminateAndTrim(buffer, pos);
  }

  /** The end of read_command: the kept characters are terminated, trimmed in place and measured. */
  method TerminateAndTrim(buffer: array<char>, pos: nat) returns (n: int)
    requires pos < buffer.Length && NUL !in buffer[..pos]
    modifies buffer
    ensures NUL in buffer[..] && CString(buffer[..]) == Trim(old(buffer[..pos]))
    ensures n == |Trim(old(buffer[..pos]))| && n <= pos
  {
    ghost var line := buffer[..pos];
    buffer[pos] := NUL;
    assert buffer[..pos] == line;
    CStringOfTerminated(buffer[..], pos);
    TrimWhitespace(buffer);
    n := Strlen(buffer);
  }
}
